/** The normal form of routing semantics: `NormalizeAndValidate` and its list normalisers (routing_semantics.go). */
module Routing {
  import opened Base
  import opened Domains
  import opened Sorting
  import opened Text

  const SCHEMA_V1 := "mirastack.routing_semantics/v1"
  const MAX_ITEMS := 64
  const MAX_DOMAIN_LENGTH := 128
  const MAX_USE_CASE_LENGTH := 256

  datatype Field = AcceptedIntentDomains | CapabilityDomain | PositiveUseCases | NegativeUseCases
                 | SignalDomains | BackendDomains | EntityTypes

  datatype Error =
    | SchemaMissing
    | SchemaUnsupported(version: string)
    | TooMany(field: Field)
    | TooLong(field: Field, item: string)
    | NotNamespaced(field: Field, item: string)
    | Duplicate(field: Field, item: string)
    | Required(field: Field)

  datatype Result<+T> = Ok(value: T) | Err(error: Error)

  datatype Semantics = Semantics(
    schemaVersion: string, accepted: seq<string>, capability: string, positive: seq<string>,
    negative: seq<string>, signals: seq<string>, backends: seq<string>, entities: seq<string>)

  datatype Kind = Domain | UseCase

  // ---- one list -------------------------------------------------------------------------

  function Norm(kind: Kind, value: string): string {
    if kind.Domain? then ToLower(TrimSpace(value)) else TrimSpace(value)
  }

  function MaxLength(kind: Kind): nat {
    if kind.Domain? then MAX_DOMAIN_LENGTH else MAX_USE_CASE_LENGTH
  }

  predicate ItemOk(kind: Kind, item: string) {
    ByteLen(item) <= MaxLength(kind) && (kind.Domain? ==> Namespaced(item))
  }

  /** What a function makes of every item of a list, in one list. */
  function Collect(f: string -> seq<string>, values: seq<string>): seq<string> {
    if values == [] then [] else Collect(f, values[..|values| - 1]) + f(values[|values| - 1])
  }

  lemma CollectSnoc(f: string -> seq<string>, q: seq<string>, x: string)
    ensures Collect(f, q + [x]) == Collect(f, q) + f(x)
  {
    assert (q + [x])[..|q|] == q;
  }

  lemma {:induction false} CollectAppend(f: string -> seq<string>, a: seq<string>, b: seq<string>)
    ensures Collect(f, a + b) == Collect(f, a) + Collect(f, b)
  {
    if b == [] {
      assert a + b == a;
    } else {
      var p, x := b[..|b| - 1], b[|b| - 1];
      calc {
        Collect(f, a + b);
        { assert a + b == (a + p) + [x]; }
        Collect(f, (a + p) + [x]);
        { CollectSnoc(f, a + p, x); }
        Collect(f, a + p) + f(x);
        { CollectAppend(f, a, p); }
        (Collect(f, a) + Collect(f, p)) + f(x);
        Collect(f, a) + (Collect(f, p) + f(x));
        Collect(f, a) + Collect(f, b);
      }
    }
  }

  /** An item may be collected last. */
  lemma CollectLast(f: string -> seq<string>, l: seq<string>, x: string, r: seq<string>)
    ensures multiset(Collect(f, l + [x] + r)) == multiset(Collect(f, l + r)) + multiset(f(x))
  {
    CollectAppend(f, l + [x], r);
    CollectSnoc(f, l, x);
    CollectAppend(f, l, r);
  }

  lemma TakeOut(q: seq<string>, x: string) returns (l: seq<string>, r: seq<string>)
    requires x in q
    ensures q == l + [x] + r && multiset(l + r) == multiset(q) - multiset{x}
  {
    var k :| 0 <= k < |q| && q[k] == x;
    l, r := q[..k], q[k + 1..];
    assert q == l + [x] + r;
  }

  /** The order of the items does not matter for what is collected. */
  lemma {:induction false} CollectShuffled(f: string -> seq<string>, p: seq<string>, q: seq<string>)
    requires multiset(p) == multiset(q)
    ensures multiset(Collect(f, p)) == multiset(Collect(f, q))
  {
    if p == [] {
      assert |multiset(q)| == 0;
    } else {
      var init, x := p[..|p| - 1], p[|p| - 1];
      assert p == init + [x];
      assert x in multiset(q);
      var l, r := TakeOut(q, x);
      CollectShuffled(f, init, l + r);
      CollectLast(f, l, x, r);
    }
  }

  /** The items that are not blank, each in normal form. */
  function Kept(kind: Kind, values: seq<string>): seq<string> {
    Collect(v => KeptItem(kind, v), values)
  }

  function KeptItem(kind: Kind, value: string): seq<string> {
    if Norm(kind, value) == "" then [] else [Norm(kind, value)]
  }

  /** What is wrong with an item that comes after those kept. */
  function ItemError(kind: Kind, field: Field, before: seq<string>, item: string): Option<Error> {
    if ByteLen(item) > MaxLength(kind) then Some(TooLong(field, item))
    else if kind.Domain? && !Namespaced(item) then Some(NotNamespaced(field, item))
    else if item in before then Some(Duplicate(field, item))
    else None
  }

  /** The first error met from left to right. */
  function FirstError(kind: Kind, field: Field, values: seq<string>): Option<Error> {
    if values == [] then None
    else
      var init := values[..|values| - 1];
      var item := Norm(kind, values[|values| - 1]);
      if FirstError(kind, field, init).Some? then FirstError(kind, field, init)
      else if item == "" then None
      else ItemError(kind, field, Kept(kind, init), item)
  }

  ghost function NormalizedList(kind: Kind, field: Field, values: seq<string>): Result<seq<string>> {
    if |values| > MAX_ITEMS then Err(TooMany(field))
    else
      match FirstError(kind, field, values)
      case Some(e) => Err(e)
      case None => Ok(AscNames(Elems(Kept(kind, values))))
  }

  /** When a list is accepted, whatever the order of its items. */
  predicate Acceptable(kind: Kind, values: seq<string>) {
    && |values| <= MAX_ITEMS
    && NoDup(Kept(kind, values))
    && forall item :: item in Kept(kind, values) ==> ItemOk(kind, item)
  }

  lemma {:induction false} NoErrorIff(kind: Kind, field: Field, values: seq<string>)
    ensures FirstError(kind, field, values).None? <==>
      NoDup(Kept(kind, values)) && forall item :: item in Kept(kind, values) ==> ItemOk(kind, item)
  {
    if values != [] {
      var n := |values| - 1;
      NoErrorIff(kind, field, values[..n]);
      var before, item := Kept(kind, values[..n]), Norm(kind, values[n]);
      if item == "" {
        assert before + [] == before;
      } else {
        NoDupSnoc(before, item);
        assert forall x :: x in before + [item] <==> x in before || x == item;
      }
    }
  }

  lemma NoDupSnoc(q: seq<string>, x: string)
    ensures NoDup(q + [x]) <==> NoDup(q) && x !in q
  {
    var r := q + [x];
    if NoDup(r) {
      assert r[|q|] == x;
      forall i | 0 <= i < |q| ensures q[i] != x { assert r[i] == q[i]; }
      forall i, j | 0 <= i < j < |q| ensures q[i] != q[j] { assert r[i] != r[j]; }
    }
  }

  /** A list is normalised without error if and only if it is acceptable. */
  lemma AcceptedIff(kind: Kind, field: Field, values: seq<string>)
    ensures NormalizedList(kind, field, values).Ok? <==> Acceptable(kind, values)
  {
    NoErrorIff(kind, field, values);
  }

  // ---- the two list methods ------------------------------------------------------------------

  lemma ListStep(kind: Kind, field: Field, values: seq<string>, i: nat)
    requires i < |values|
    ensures Kept(kind, values[..i + 1]) == Kept(kind, values[..i]) + KeptItem(kind, values[i])
    ensures FirstError(kind, field, values[..i]).None? ==>
      FirstError(kind, field, values[..i + 1]) ==
        if Norm(kind, values[i]) == "" then None
          else ItemError(kind, field, Kept(kind, values[..i]), Norm(kind, values[i]))
  {
    assert values[..i + 1][..i] == values[..i];
    assert values[..i + 1] == values[..i] + [values[i]];
    CollectSnoc(v => KeptItem(kind, v), values[..i], values[i]);
  }

  /** An error found in a part of the list is the error of the list. */
  lemma {:induction false} ErrorStays(kind: Kind, field: Field, values: seq<string>, i: nat)
    requires i <= |values| && FirstError(kind, field, values[..i]).Some?
    ensures FirstError(kind, field, values) == FirstError(kind, field, values[..i])
  {
    if i == |values| {
      assert values[..i] == values;
    } else {
      var init := values[..|values| - 1];
      assert init[..i] == values[..i];
      ErrorStays(kind, field, init, i);
    }
  }

  /** What the loop over a list holds after a part of it. */
  ghost predicate ListSoFar(kind: Kind, field: Field, values: seq<string>, seen: set<string>, out: seq<string>) {
    && out == Kept(kind, values) && NoDup(out)
    && FirstError(kind, field, values).None?
    && forall s :: s in seen <==> s in out
  }

  lemma ListGoesOn(kind: Kind, field: Field, values: seq<string>, i: nat, seen: set<string>, out: seq<string>)
    requires i < |values| && ListSoFar(kind, field, values[..i], seen, out)
    ensures var item := Norm(kind, values[i]);
      if item == "" then ListSoFar(kind, field, values[..i + 1], seen, out)
      else if ItemError(kind, field, out, item).None? then
        ListSoFar(kind, field, values[..i + 1], seen + {item}, out + [item])
      else FirstError(kind, field, values) == ItemError(kind, field, out, item)
  {
    var item := Norm(kind, values[i]);
    ListStep(kind, field, values, i);
    if item == "" {
      assert out + [] == out;
    } else if ItemError(kind, field, out, item).None? {
      NoDupSnoc(out, item);
    } else {
      ErrorStays(kind, field, values, i + 1);
    }
  }

  /** `normalizeDomainList`. */
  method NormalizeDomainList(values: seq<string>, field: Field) returns (r: Result<seq<string>>)
    ensures r == NormalizedList(Domain, field, values)
  {
    if |values| > MAX_ITEMS {
      return Err(TooMany(field));
    }
    var out: seq<string> := [];
    var seen: set<string> := {};
    for i := 0 to |values|
      invariant ListSoFar(Domain, field, values[..i], seen, out)
    {
      var normalized := ToLower(TrimSpace(values[i]));
      ListGoesOn(Domain, field, values, i, seen, out);
      if normalized == "" {
        continue;
      }
      var e := CheckDomain(normalized, field, seen, out);
      if e.Some? {
        return Err(e.value);
      }
      seen := seen + {normalized};
      out := out + [normalized];
    }
    assert values[..|values|] == values;
    out := SortNames(out);
    return Ok(out);
  }

  method CheckDomain(normalized: string, field: Field, seen: set<string>, ghost out: seq<string>)
    returns (e: Option<Error>)
    requires forall s :: s in seen <==> s in out
    ensures e == ItemError(Domain, field, out, normalized)
  {
    if ByteLen(normalized) > MAX_DOMAIN_LENGTH {
      return Some(TooLong(field, normalized));
    }
    if !Namespaced(normalized) {
      return Some(NotNamespaced(field, normalized));
    }
    if normalized in seen {
      return Some(Duplicate(field, normalized));
    }
    return None;
  }

  /** `normalizeUseCaseList`. */
  method NormalizeUseCaseList(values: seq<string>, field: Field) returns (r: Result<seq<string>>)
    ensures r == NormalizedList(UseCase, field, values)
  {
    if |values| > MAX_ITEMS {
      return Err(TooMany(field));
    }
    var out: seq<string> := [];
    var seen: set<string> := {};
    for i := 0 to |values|
      invariant ListSoFar(UseCase, field, values[..i], seen, out)
    {
      var normalized := TrimSpace(values[i]);
      ListGoesOn(UseCase, field, values, i, seen, out);
      if normalized == "" {
        continue;
      }
      var e := CheckUseCase(normalized, field, seen, out);
      if e.Some? {
        return Err(e.value);
      }
      seen := seen + {normalized};
      out := out + [normalized];
    }
    assert values[..|values|] == values;
    out := SortNames(out);
    return Ok(out);
  }

  method CheckUseCase(normalized: string, field: Field, seen: set<string>, ghost out: seq<string>)
    returns (e: Option<Error>)
    requires forall s :: s in seen <==> s in out
    ensures e == ItemError(UseCase, field, out, normalized)
  {
    if ByteLen(normalized) > MAX_USE_CASE_LENGTH {
      return Some(TooLong(field, normalized));
    }
    if normalized in seen {
      return Some(Duplicate(field, normalized));
    }
    return None;
  }

  // ---- the order of items does not matter ---------------------------------------------------------

  lemma {:induction false} NoDupCounts(q: seq<string>)
    ensures NoDup(q) <==> forall x :: x in q ==> multiset(q)[x] == 1
  {
    if q != [] {
      var n := |q| - 1;
      var p, x := q[..n], q[n];
      assert q == p + [x];
      NoDupCounts(p);
      NoDupSnoc(p, x);
      if NoDup(q) {
        forall y | y in q ensures multiset(q)[y] == 1 {
          assert y == x || y in p;
        }
      } else if x in p {
        assert multiset(q)[x] >= 2;
      } else {
        var y :| y in p && multiset(p)[y] != 1;
        assert y in q && multiset(q)[y] == multiset(p)[y];
      }
    }
  }

  /** Whether a list is accepted, and what it becomes, does not depend on the order of its items. */
  lemma ListOrderInsensitive(kind: Kind, field: Field, p: seq<string>, q: seq<string>)
    requires multiset(p) == multiset(q)
    ensures NormalizedList(kind, field, p).Ok? <==> NormalizedList(kind, field, q).Ok?
    ensures NormalizedList(kind, field, p).Ok? ==> NormalizedList(kind, field, p) == NormalizedList(kind, field, q)
  {
    AcceptedIff(kind, field, p);
    AcceptedIff(kind, field, q);
    CollectShuffled(v => KeptItem(kind, v), p, q);
    SameContents(Kept(kind, p), Kept(kind, q));
    assert |p| == |multiset(p)| == |multiset(q)| == |q|;
  }

  lemma SameContents(a: seq<string>, b: seq<string>)
    requires multiset(a) == multiset(b)
    ensures NoDup(a) <==> NoDup(b)
    ensures Elems(a) == Elems(b) && forall x :: x in a <==> x in b
  {
    NoDupCounts(a);
    NoDupCounts(b);
    forall x ensures x in a <==> x in b {
      assert x in a <==> x in multiset(a);
      assert x in b <==> x in multiset(b);
    }
  }

  // ---- lists in normal form -------------------------------------------------------------------------

  predicate NormalList(kind: Kind, values: seq<string>) {
    && |values| <= MAX_ITEMS
    && Ascending(values, Before)
    && forall item :: item in values ==> NormalItem(kind, item)
  }

  predicate NormalItem(kind: Kind, item: string) {
    item != "" && Trimmed(item) && ItemOk(kind, item)
  }

  lemma NormalItemStays(kind: Kind, item: string)
    requires NormalItem(kind, item)
    ensures Norm(kind, item) == item
  {
    TrimSpaceNormal(item);
    if kind.Domain? {
      NamespacedIsNormal(item);
    }
  }

  lemma KeptItemIsNormal(kind: Kind, value: string)
    requires ItemOk(kind, Norm(kind, value)) && Norm(kind, value) != ""
    ensures NormalItem(kind, Norm(kind, value))
  {
    TrimSpaceNormal(value);
    var item := Norm(kind, value);
    if kind.Domain? {
      NamespacedIsNormal(item);
      TrimSpaceNormal(item);
      DomainIsTrimmed(item);
    }
  }

  lemma DomainIsTrimmed(item: string)
    requires Namespaced(item)
    ensures Trimmed(item)
  {
    ScanChars(item, true, false);
    if item != "" {
      assert item[0] in item && item[|item| - 1] in item;
    }
  }

  lemma {:induction false} KeptAreNorms(kind: Kind, values: seq<string>)
    ensures |Kept(kind, values)| <= |values|
    ensures forall item :: item in Kept(kind, values) ==> exists v :: v in values && Norm(kind, v) == item != ""
  {
    if values != [] {
      var n := |values| - 1;
      KeptAreNorms(kind, values[..n]);
      forall item | item in Kept(kind, values) ensures exists v :: v in values && Norm(kind, v) == item != "" {
        if item in Kept(kind, values[..n]) {
          var v :| v in values[..n] && Norm(kind, v) == item != "";
          assert v in values;
        } else {
          assert values[n] in values;
        }
      }
    }
  }

  lemma {:induction false} KeptOfNormal(kind: Kind, values: seq<string>)
    requires forall item :: item in values ==> NormalItem(kind, item)
    ensures Kept(kind, values) == values
  {
    if values != [] {
      var n := |values| - 1;
      KeptOfNormal(kind, values[..n]);
      NormalItemStays(kind, values[n]);
      InitLast(values);
    }
  }

  /** What a normalised list looks like. */
  lemma ListIsNormal(kind: Kind, field: Field, values: seq<string>)
    requires NormalizedList(kind, field, values).Ok?
    ensures NormalList(kind, NormalizedList(kind, field, values).value)
    ensures NormalizedList(kind, field, values).value == [] <==> forall v :: v in values ==> Norm(kind, v) == ""
  {
    AcceptedIff(kind, field, values);
    var kept := Kept(kind, values);
    var out := AscNames(Elems(kept));
    KeptAreNorms(kind, values);
    AscNamesNoDup(Elems(kept));
    CountElems(kept);
    forall item | item in out ensures NormalItem(kind, item) {
      assert item in Elems(out) && item in kept;
      var v :| v in values && Norm(kind, v) == item != "";
      KeptItemIsNormal(kind, v);
    }
    NoneKeptIff(kind, values);
  }

  lemma {:induction false} NoneKeptIff(kind: Kind, values: seq<string>)
    ensures Kept(kind, values) == [] <==> forall v :: v in values ==> Norm(kind, v) == ""
  {
    if values != [] {
      var n := |values| - 1;
      NoneKeptIff(kind, values[..n]);
      InitLast(values);
      assert forall v :: v in values <==> v in values[..n] || v == values[n];
    }
  }

  /** The fixed points of normalising a list are exactly the lists in normal form. */
  lemma ListFixedIff(kind: Kind, field: Field, values: seq<string>)
    ensures NormalizedList(kind, field, values) == Ok(values) <==> NormalList(kind, values)
  {
    if NormalizedList(kind, field, values) == Ok(values) {
      ListIsNormal(kind, field, values);
    }
    if NormalList(kind, values) {
      KeptOfNormal(kind, values);
      AscendingNoDup(values);
      forall item | item in values ensures ItemOk(kind, item) {
        assert NormalItem(kind, item);
      }
      AcceptedIff(kind, field, values);
      AscNamesIs(values);
    }
  }

  lemma AscendingNoDup(q: seq<string>)
    requires Ascending(q, Before)
    ensures NoDup(q)
  {
    forall i, j | 0 <= i < j < |q| ensures q[i] != q[j] {
      assert Before(q[i], q[j]);
      BeforeIrreflexive(q[i]);
    }
  }

  // ---- the whole record --------------------------------------------------------------------------

  /** `normalizeSingleDomain`: a blank name is accepted and stays blank. */
  function NormalizeSingleDomain(value: string, field: Field): (r: Result<string>)
    ensures r.Ok? <==> Norm(Domain, value) == "" || ItemOk(Domain, Norm(Domain, value))
    ensures r.Ok? ==> r.value == Norm(Domain, value)
  {
    var normalized := ToLower(TrimSpace(value));
    if normalized == "" then Ok("")
    else if ByteLen(normalized) > MAX_DOMAIN_LENGTH then Err(TooLong(field, normalized))
    else if !Namespaced(normalized) then Err(NotNamespaced(field, normalized))
    else Ok(normalized)
  }

  ghost function RequiredList(kind: Kind, field: Field, values: seq<string>): Result<seq<string>> {
    var r := NormalizedList(kind, field, values);
    if r == Ok([]) then Err(Required(field)) else r
  }

  function CheckedSchema(version: string): Result<string> {
    var v := TrimSpace(version);
    if v == "" then Err(SchemaMissing) else if v != SCHEMA_V1 then Err(SchemaUnsupported(v)) else Ok(v)
  }

  function RequiredDomain(value: string): Result<string> {
    var r := NormalizeSingleDomain(value, CapabilityDomain);
    if r == Ok("") then Err(Required(CapabilityDomain)) else r
  }

  /** Schema version, accepted domains, capability and positive use cases, in this order. */
  ghost function Head(r: Semantics): Result<Semantics> {
    var schema := CheckedSchema(r.schemaVersion);
    var accepted := RequiredList(Domain, AcceptedIntentDomains, r.accepted);
    var capability := RequiredDomain(r.capability);
    var positive := RequiredList(UseCase, PositiveUseCases, r.positive);
    if schema.Err? then Err(schema.error)
    else if accepted.Err? then Err(accepted.error)
    else if capability.Err? then Err(capability.error)
    else if positive.Err? then Err(positive.error)
    else
      Ok(r.(schemaVersion := schema.value, accepted := accepted.value, capability := capability.value,
        positive := positive.value))
  }

  /** The optional lists. */
  ghost function Tail(r: Semantics): Result<Semantics> {
    var negative := NormalizedList(UseCase, NegativeUseCases, r.negative);
    var signals := NormalizedList(Domain, SignalDomains, r.signals);
    var backends := NormalizedList(Domain, BackendDomains, r.backends);
    var entities := NormalizedList(Domain, EntityTypes, r.entities);
    if negative.Err? then Err(negative.error)
    else if signals.Err? then Err(signals.error)
    else if backends.Err? then Err(backends.error)
    else if entities.Err? then Err(entities.error)
    else
      Ok(r.(negative := negative.value, signals := signals.value, backends := backends.value,
        entities := entities.value))
  }

  /** `NormalizeAndValidate` as a function: the first field that fails decides the error. */
  ghost function Normalized(r: Semantics): Result<Semantics> {
    var head := Head(r);
    if head.Err? then head else Tail(head.value)
  }

  /** `NormalizeAndValidate`: a copy of the record, normalised field by field. */
  method NormalizeAndValidate(r: Semantics) returns (res: Result<Semantics>)
    ensures res == Normalized(r)
  {
    res := NormalizeRequired(r);
    if res.Err? {
      return;
    }
    res := NormalizeOptional(res.value);
  }

  method NormalizeRequired(r: Semantics) returns (res: Result<Semantics>)
    ensures res == Head(r)
  {
    var schema := CheckedSchema(r.schemaVersion);
    if schema.Err? {
      return Err(schema.error);
    }
    var out := r.(schemaVersion := schema.value);
    var accepted := NormalizeDomainList(out.accepted, AcceptedIntentDomains);
    if accepted.Err? {
      return Err(accepted.error);
    }
    if |accepted.value| == 0 {
      return Err(Required(AcceptedIntentDomains));
    }
    out := out.(accepted := accepted.value);
    var capability := RequiredDomain(out.capability);
    if capability.Err? {
      return Err(capability.error);
    }
    out := out.(capability := capability.value);
    var positive := NormalizeUseCaseList(out.positive, PositiveUseCases);
    if positive.Err? {
      return Err(positive.error);
    }
    if |positive.value| == 0 {
      return Err(Required(PositiveUseCases));
    }
    return Ok(out.(positive := positive.value));
  }

  method NormalizeOptional(r: Semantics) returns (res: Result<Semantics>)
    ensures res == Tail(r)
  {
    var out := r;
    var negative := NormalizeUseCaseList(out.negative, NegativeUseCases);
    if negative.Err? {
      return Err(negative.error);
    }
    out := out.(negative := negative.value);
    var signals := NormalizeDomainList(out.signals, SignalDomains);
    if signals.Err? {
      return Err(signals.error);
    }
    out := out.(signals := signals.value);
    var backends := NormalizeDomainList(out.backends, BackendDomains);
    if backends.Err? {
      return Err(backends.error);
    }
    out := out.(backends := backends.value);
    var entities := NormalizeDomainList(out.entities, EntityTypes);
    if entities.Err? {
      return Err(entities.error);
    }
    return Ok(out.(entities := entities.value));
  }

  // ---- the laws of the normal form ------------------------------------------------------------------

  /** What a record must satisfy to be accepted; no part of it mentions an order of items. */
  predicate Valid(r: Semantics) {
    && TrimSpace(r.schemaVersion) == SCHEMA_V1
    && Acceptable(Domain, r.accepted) && (exists v :: v in r.accepted && Norm(Domain, v) != "")
    && Norm(Domain, r.capability) != "" && ItemOk(Domain, Norm(Domain, r.capability))
    && Acceptable(UseCase, r.positive) && (exists v :: v in r.positive && Norm(UseCase, v) != "")
    && Acceptable(UseCase, r.negative)
    && Acceptable(Domain, r.signals) && Acceptable(Domain, r.backends) && Acceptable(Domain, r.entities)
  }

  predicate Normal(r: Semantics) {
    && r.schemaVersion == SCHEMA_V1
    && r.accepted != [] && NormalList(Domain, r.accepted)
    && NormalItem(Domain, r.capability)
    && r.positive != [] && NormalList(UseCase, r.positive)
    && NormalList(UseCase, r.negative)
    && NormalList(Domain, r.signals) && NormalList(Domain, r.backends) && NormalList(Domain, r.entities)
  }

  lemma RequiredIff(kind: Kind, field: Field, values: seq<string>)
    ensures RequiredList(kind, field, values).Ok? <==>
      Acceptable(kind, values) && exists v :: v in values && Norm(kind, v) != ""
    ensures RequiredList(kind, field, values).Ok? ==>
      RequiredList(kind, field, values).value != [] && NormalList(kind, RequiredList(kind, field, values).value)
  {
    AcceptedIff(kind, field, values);
    if NormalizedList(kind, field, values).Ok? {
      ListIsNormal(kind, field, values);
    }
  }

  /** Exactly the valid records are accepted. */
  lemma NormalizedIff(r: Semantics)
    ensures Normalized(r).Ok? <==> Valid(r)
  {
    RequiredIff(Domain, AcceptedIntentDomains, r.accepted);
    RequiredIff(UseCase, PositiveUseCases, r.positive);
    AcceptedIff(UseCase, NegativeUseCases, r.negative);
    AcceptedIff(Domain, SignalDomains, r.signals);
    AcceptedIff(Domain, BackendDomains, r.backends);
    AcceptedIff(Domain, EntityTypes, r.entities);
  }

  /** The result is in normal form: lists sorted, without repetition, of valid items. */
  lemma ResultIsNormal(r: Semantics)
    ensures Normalized(r).Ok? ==> Normal(Normalized(r).value)
  {
    NormalizedIff(r);
    if Valid(r) {
      ValidBecomesNormal(r);
    }
  }

  lemma ValidBecomesNormal(r: Semantics)
    requires Valid(r)
    ensures Normalized(r).Ok? && Normal(Normalized(r).value)
  {
    NormalizedIff(r);
    RequiredIff(Domain, AcceptedIntentDomains, r.accepted);
    RequiredIff(UseCase, PositiveUseCases, r.positive);
    ListIsNormal(UseCase, NegativeUseCases, r.negative);
    ListIsNormal(Domain, SignalDomains, r.signals);
    ListIsNormal(Domain, BackendDomains, r.backends);
    ListIsNormal(Domain, EntityTypes, r.entities);
    KeptItemIsNormal(Domain, r.capability);
  }

  /** The fixed points are exactly the records in normal form. */
  lemma FixedIff(r: Semantics)
    ensures Normalized(r) == Ok(r) <==> Normal(r)
  {
    if Normalized(r) == Ok(r) {
      ResultIsNormal(r);
    }
    if Normal(r) {
      NormalIsFixed(r);
    }
  }

  lemma NormalIsFixed(r: Semantics)
    requires Normal(r)
    ensures Normalized(r) == Ok(r)
  {
    SchemaStays(r.schemaVersion);
    RequiredStays(Domain, AcceptedIntentDomains, r.accepted);
    CapabilityStays(r.capability);
    RequiredStays(UseCase, PositiveUseCases, r.positive);
    ListFixedIff(UseCase, NegativeUseCases, r.negative);
    ListFixedIff(Domain, SignalDomains, r.signals);
    ListFixedIff(Domain, BackendDomains, r.backends);
    ListFixedIff(Domain, EntityTypes, r.entities);
  }

  lemma RequiredStays(kind: Kind, field: Field, values: seq<string>)
    requires values != [] && NormalList(kind, values)
    ensures RequiredList(kind, field, values) == Ok(values)
  {
    ListFixedIff(kind, field, values);
  }

  lemma CapabilityStays(value: string)
    requires NormalItem(Domain, value)
    ensures RequiredDomain(value) == Ok(value)
  {
    NormalItemStays(Domain, value);
  }

  lemma SchemaStays(version: string)
    requires version == SCHEMA_V1
    ensures CheckedSchema(version) == Ok(version)
  {
    SchemaIsTrimmed();
  }

  lemma SchemaIsTrimmed()
    ensures TrimSpace(SCHEMA_V1) == SCHEMA_V1
  {
    assert SCHEMA_V1[0] == 'm' && SCHEMA_V1[|SCHEMA_V1| - 1] == '1';
    TrimSpaceNormal(SCHEMA_V1);
  }

  /** Normalising twice changes nothing, and never fails the second time. */
  lemma NormalizeIdempotent(r: Semantics)
    ensures Normalized(r).Ok? ==> Normalized(Normalized(r).value) == Normalized(r)
  {
    ResultIsNormal(r);
    if Normalized(r).Ok? {
      FixedIff(Normalized(r).value);
    }
  }

  /** Records that differ only in the order of their list items. */
  ghost predicate Shuffled(r: Semantics, s: Semantics) {
    && r.schemaVersion == s.schemaVersion && r.capability == s.capability
    && multiset(r.accepted) == multiset(s.accepted)
    && multiset(r.positive) == multiset(s.positive)
    && multiset(r.negative) == multiset(s.negative)
    && multiset(r.signals) == multiset(s.signals)
    && multiset(r.backends) == multiset(s.backends)
    && multiset(r.entities) == multiset(s.entities)
  }

  lemma RequiredOrderInsensitive(kind: Kind, field: Field, p: seq<string>, q: seq<string>)
    requires multiset(p) == multiset(q)
    ensures RequiredList(kind, field, p).Ok? <==> RequiredList(kind, field, q).Ok?
    ensures RequiredList(kind, field, p).Ok? ==> RequiredList(kind, field, p) == RequiredList(kind, field, q)
  {
    ListOrderInsensitive(kind, field, p, q);
  }

  /** Neither acceptance nor the result depends on the order of list items. */
  lemma NormalizeOrderInsensitive(r: Semantics, s: Semantics)
    requires Shuffled(r, s)
    ensures Normalized(r).Ok? <==> Normalized(s).Ok?
    ensures Normalized(r).Ok? ==> Normalized(r) == Normalized(s)
  {
    RequiredOrderInsensitive(Domain, AcceptedIntentDomains, r.accepted, s.accepted);
    RequiredOrderInsensitive(UseCase, PositiveUseCases, r.positive, s.positive);
    ListOrderInsensitive(UseCase, NegativeUseCases, r.negative, s.negative);
    ListOrderInsensitive(Domain, SignalDomains, r.signals, s.signals);
    ListOrderInsensitive(Domain, BackendDomains, r.backends, s.backends);
    ListOrderInsensitive(Domain, EntityTypes, r.entities, s.entities);
  }
}
