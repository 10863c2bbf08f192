/** What the normaliser does, said of the items as they are given. */
module RoutingLaws {
  import opened Base
  import opened Domains
  import opened Sorting
  import opened Text
  import opened Routing

  // ---- white space and capitals do not matter ---------------------------------------------

  predicate PaddedAs(q: string, l: string, m: string, r: string) {
    q == l + m + r && Spaces(l) && Spaces(r)
  }

  /** `q` is `p` with white space added at either end and, for domains, letters made capital. */
  ghost predicate Variant(kind: Kind, p: string, q: string) {
    exists l, m, r :: PaddedAs(q, l, m, r) && if kind.Domain? then Recased(p, m) else m == p
  }

  ghost predicate Variants(kind: Kind, ps: seq<string>, qs: seq<string>) {
    |ps| == |qs| && forall i :: 0 <= i < |ps| ==> Variant(kind, ps[i], qs[i])
  }

  lemma VariantNorm(kind: Kind, p: string, q: string)
    requires Variant(kind, p, q)
    ensures Norm(kind, p) == Norm(kind, q)
  {
    var l, m, r :| PaddedAs(q, l, m, r) && if kind.Domain? then Recased(p, m) else m == p;
    TrimPads(l, m, r);
    if kind.Domain? {
      TrimRecased(p, m);
      LowerRecased(TrimSpace(p), TrimSpace(m));
    }
  }

  lemma {:induction false} SameNorms(kind: Kind, field: Field, ps: seq<string>, qs: seq<string>)
    requires |ps| == |qs| && forall i :: 0 <= i < |ps| ==> Norm(kind, ps[i]) == Norm(kind, qs[i])
    ensures Kept(kind, ps) == Kept(kind, qs) && FirstError(kind, field, ps) == FirstError(kind, field, qs)
  {
    if ps != [] {
      SameNorms(kind, field, ps[..|ps| - 1], qs[..|qs| - 1]);
    }
  }

  /** A list and its variants have one result, the error included. */
  lemma ListVariant(kind: Kind, field: Field, ps: seq<string>, qs: seq<string>)
    requires Variants(kind, ps, qs)
    ensures NormalizedList(kind, field, ps) == NormalizedList(kind, field, qs)
  {
    forall i | 0 <= i < |ps| ensures Norm(kind, ps[i]) == Norm(kind, qs[i]) {
      assert Variant(kind, ps[i], qs[i]);
      VariantNorm(kind, ps[i], qs[i]);
    }
    SameNorms(kind, field, ps, qs);
  }

  lemma SingleVariant(field: Field, p: string, q: string)
    requires Variant(Domain, p, q)
    ensures NormalizeSingleDomain(p, field) == NormalizeSingleDomain(q, field)
  {
    VariantNorm(Domain, p, q);
  }

  ghost predicate RecordVariants(r: Semantics, s: Semantics) {
    && Variant(UseCase, r.schemaVersion, s.schemaVersion)
    && Variants(Domain, r.accepted, s.accepted) && Variant(Domain, r.capability, s.capability)
    && Variants(UseCase, r.positive, s.positive) && Variants(UseCase, r.negative, s.negative)
    && Variants(Domain, r.signals, s.signals) && Variants(Domain, r.backends, s.backends)
    && Variants(Domain, r.entities, s.entities)
  }

  /** So have a record and its variants. */
  lemma RecordVariant(r: Semantics, s: Semantics)
    requires RecordVariants(r, s)
    ensures Normalized(r) == Normalized(s)
  {
    HeadVariant(r, s);
    TailVariant(r, s);
    AlikeRecords(r, s);
  }

  ghost predicate AlikeHead(r: Semantics, s: Semantics) {
    && CheckedSchema(r.schemaVersion) == CheckedSchema(s.schemaVersion)
    && RequiredList(Domain, AcceptedIntentDomains, r.accepted) ==
       RequiredList(Domain, AcceptedIntentDomains, s.accepted)
    && RequiredDomain(r.capability) == RequiredDomain(s.capability)
    && RequiredList(UseCase, PositiveUseCases, r.positive) == RequiredList(UseCase, PositiveUseCases, s.positive)
  }

  ghost predicate AlikeTail(r: Semantics, s: Semantics) {
    && NormalizedList(UseCase, NegativeUseCases, r.negative) == NormalizedList(UseCase, NegativeUseCases, s.negative)
    && NormalizedList(Domain, SignalDomains, r.signals) == NormalizedList(Domain, SignalDomains, s.signals)
    && NormalizedList(Domain, BackendDomains, r.backends) == NormalizedList(Domain, BackendDomains, s.backends)
    && NormalizedList(Domain, EntityTypes, r.entities) == NormalizedList(Domain, EntityTypes, s.entities)
  }

  lemma AlikeRecords(r: Semantics, s: Semantics)
    requires AlikeHead(r, s) && AlikeTail(r, s)
    ensures Normalized(r) == Normalized(s)
  {
    if Head(r).Ok? {
      assert AlikeTail(Head(r).value, Head(s).value);
    }
  }

  lemma HeadVariant(r: Semantics, s: Semantics)
    requires RecordVariants(r, s)
    ensures AlikeHead(r, s)
  {
    VariantNorm(UseCase, r.schemaVersion, s.schemaVersion);
    ListVariant(Domain, AcceptedIntentDomains, r.accepted, s.accepted);
    VariantNorm(Domain, r.capability, s.capability);
    ListVariant(UseCase, PositiveUseCases, r.positive, s.positive);
  }

  lemma TailVariant(r: Semantics, s: Semantics)
    requires RecordVariants(r, s)
    ensures AlikeTail(r, s)
  {
    ListVariant(UseCase, NegativeUseCases, r.negative, s.negative);
    ListVariant(Domain, SignalDomains, r.signals, s.signals);
    ListVariant(Domain, BackendDomains, r.backends, s.backends);
    ListVariant(Domain, EntityTypes, r.entities, s.entities);
  }

  // ---- plain items -----------------------------------------------------------------------------

  /** An item without white space around it and, for domains, without capitals. */
  predicate Plain(kind: Kind, item: string) {
    item != "" && item[0] !in SPACES && item[|item| - 1] !in SPACES && (kind.Domain? ==> NoCapitals(item))
  }

  lemma PlainNorm(kind: Kind, item: string)
    requires Plain(kind, item)
    ensures Norm(kind, item) == item
  {
    SpaceIff(item[0]);
    SpaceIff(item[|item| - 1]);
    TrimSpaceNormal(item);
    if kind.Domain? {
      LowerKeeps(item);
    }
  }

  /** At most 128 bytes and two or more labels joined by dots, or at most 256 bytes. */
  ghost predicate Fits(kind: Kind, item: string) {
    if kind.Domain? then |Utf8(item)| <= 128 && InLetters(item) else |Utf8(item)| <= 256
  }

  lemma FitsIff(kind: Kind, item: string)
    ensures Fits(kind, item) <==> ItemOk(kind, item)
  {
    Utf8Length(item);
    InLettersIff(item);
  }

  lemma {:induction false} PlainKept(kind: Kind, values: seq<string>)
    requires forall v :: v in values ==> Plain(kind, v)
    ensures Kept(kind, values) == values
  {
    if values != [] {
      var n := |values| - 1;
      PlainKept(kind, values[..n]);
      PlainNorm(kind, values[n]);
      InitLast(values);
    }
  }

  /**
   * A list of plain items is accepted if and only if there are at most 64, no two the same, and
   * each fits; the result lists them in ascending order.
   */
  lemma PlainListIff(kind: Kind, field: Field, values: seq<string>)
    requires forall v :: v in values ==> Plain(kind, v)
    ensures NormalizedList(kind, field, values).Ok? <==>
      |values| <= 64 && (forall i, j :: 0 <= i < j < |values| ==> values[i] != values[j]) &&
      forall v :: v in values ==> Fits(kind, v)
    ensures NormalizedList(kind, field, values).Ok? ==>
      var out := NormalizedList(kind, field, values).value;
      Ascending(out, Before) && forall v :: v in out <==> v in values
  {
    PlainKept(kind, values);
    AcceptedIff(kind, field, values);
    forall v ensures Fits(kind, v) <==> ItemOk(kind, v) {
      FitsIff(kind, v);
    }
    var out := AscNames(Elems(values));
    forall v ensures v in out <==> v in values {
      assert v in out <==> v in Elems(out);
      assert v in values <==> v in Elems(values);
    }
  }

  /** A single plain domain is accepted, as it is, if and only if it fits; a blank one stays blank. */
  lemma PlainSingleIff(field: Field, value: string)
    ensures Plain(Domain, value) ==> (NormalizeSingleDomain(value, field).Ok? <==> Fits(Domain, value))
    ensures Plain(Domain, value) && Fits(Domain, value) ==> NormalizeSingleDomain(value, field) == Ok(value)
    ensures Spaces(value) ==> NormalizeSingleDomain(value, field) == Ok("")
  {
    FitsIff(Domain, value);
    BlankIff(value);
    if Plain(Domain, value) {
      PlainNorm(Domain, value);
    }
  }

  /** Blank items count towards the 64, and are otherwise ignored. */
  lemma BlanksAreSkipped(kind: Kind, field: Field, l: seq<string>, b: string, r: seq<string>)
    requires Spaces(b) && |l| + 1 + |r| <= 64
    ensures NormalizedList(kind, field, l + [b] + r) == NormalizedList(kind, field, l + r)
  {
    SkippedBlank(kind, field, l, b, r);
  }

  lemma {:induction false} SkippedBlank(kind: Kind, field: Field, l: seq<string>, b: string, r: seq<string>)
    requires Spaces(b)
    ensures Kept(kind, l + [b] + r) == Kept(kind, l + r)
    ensures FirstError(kind, field, l + [b] + r) == FirstError(kind, field, l + r)
  {
    BlankIff(b);
    if r == [] {
      assert l + [b] + r == l + [b] && l + r == l;
      assert (l + [b])[..|l|] == l;
      assert Kept(kind, l) + [] == Kept(kind, l);
    } else {
      var n := |r| - 1;
      SkippedBlank(kind, field, l, b, r[..n]);
      SplitLast(l + [b], r);
      SplitLast(l, r);
      OneItemMore(kind, field, l + [b] + r[..n], r[n]);
      OneItemMore(kind, field, l + r[..n], r[n]);
    }
  }

  lemma OneItemMore(kind: Kind, field: Field, values: seq<string>, x: string)
    ensures Kept(kind, values + [x]) == Kept(kind, values) + KeptItem(kind, x)
    ensures FirstError(kind, field, values + [x]) ==
      if FirstError(kind, field, values).Some? then FirstError(kind, field, values)
      else if Norm(kind, x) == "" then None
      else ItemError(kind, field, Kept(kind, values), Norm(kind, x))
  {
    assert (values + [x])[..|values|] == values;
    CollectSnoc(v => KeptItem(kind, v), values, x);
  }

  // ---- the errors ---------------------------------------------------------------------------------

  /** `e` is what is wrong with item `i`, the first that is not fine. */
  ghost predicate FaultAt(kind: Kind, field: Field, values: seq<string>, i: int, e: Error) {
    && 0 <= i < |values| && FirstError(kind, field, values[..i]).None?
    && ItemFault(kind, field, values[..i], Norm(kind, values[i]), e)
  }

  /** `e` is what is wrong with an item after those before it. */
  ghost predicate ItemFault(kind: Kind, field: Field, before: seq<string>, item: string, e: Error) {
    item != "" &&
    if |Utf8(item)| > (if kind.Domain? then 128 else 256) then e == TooLong(field, item)
    else if kind.Domain? && !InLetters(item) then e == NotNamespaced(field, item)
    else e == Duplicate(field, item) && Met(kind, before, item)
  }

  ghost predicate Met(kind: Kind, before: seq<string>, item: string) {
    exists j :: 0 <= j < |before| && Norm(kind, before[j]) == item
  }

  /** The error of a list: too many items, or what is wrong with the first item that is not fine. */
  lemma ListErrorIs(kind: Kind, field: Field, values: seq<string>)
    requires NormalizedList(kind, field, values).Err?
    ensures var e := NormalizedList(kind, field, values).error;
      if |values| > 64 then e == TooMany(field) else exists i :: FaultAt(kind, field, values, i, e)
  {
    if |values| <= 64 {
      var i := FindFault(kind, field, values);
    }
  }

  lemma {:induction false} FindFault(kind: Kind, field: Field, values: seq<string>) returns (i: nat)
    requires FirstError(kind, field, values).Some?
    ensures FaultAt(kind, field, values, i, FirstError(kind, field, values).value)
  {
    var n := |values| - 1;
    if FirstError(kind, field, values[..n]).Some? {
      i := FindFault(kind, field, values[..n]);
      FaultStays(kind, field, values, n, i, FirstError(kind, field, values[..n]).value);
    } else {
      i := n;
      LastFault(kind, field, values);
    }
  }

  lemma FaultStays(kind: Kind, field: Field, values: seq<string>, n: nat, i: nat, e: Error)
    requires n <= |values| && FaultAt(kind, field, values[..n], i, e)
    ensures FaultAt(kind, field, values, i, e)
  {
    assert values[..n][..i] == values[..i];
  }

  lemma LastFault(kind: Kind, field: Field, values: seq<string>)
    requires FirstError(kind, field, values).Some? && FirstError(kind, field, values[..|values| - 1]).None?
    ensures FaultAt(kind, field, values, |values| - 1, FirstError(kind, field, values).value)
  {
    var n := |values| - 1;
    ErrorIsFault(kind, field, values[..n], Norm(kind, values[n]));
  }

  lemma ErrorIsFault(kind: Kind, field: Field, before: seq<string>, item: string)
    requires item != "" && ItemError(kind, field, Kept(kind, before), item).Some?
    ensures ItemFault(kind, field, before, item, ItemError(kind, field, Kept(kind, before), item).value)
  {
    FitsIff(kind, item);
    Utf8Length(item);
    InLettersIff(item);
    if item in Kept(kind, before) {
      KeptIsMet(kind, before, item);
    }
  }

  lemma KeptIsMet(kind: Kind, values: seq<string>, item: string)
    requires item in Kept(kind, values)
    ensures Met(kind, values, item)
  {
    KeptAreNorms(kind, values);
    var v :| v in values && Norm(kind, v) == item != "";
    var j :| 0 <= j < |values| && values[j] == v;
    assert Norm(kind, values[j]) == item;
  }

  ghost predicate ListOk(kind: Kind, f: Field, values: seq<string>) {
    NormalizedList(kind, f, values).Ok?
  }

  ghost predicate HeadOk(r: Semantics) {
    && RequiredList(Domain, AcceptedIntentDomains, r.accepted).Ok?
    && RequiredDomain(r.capability).Ok?
    && RequiredList(UseCase, PositiveUseCases, r.positive).Ok?
  }

  /** The first field that is not fine, among the required ones and among the others. */
  ghost predicate HeadFault(r: Semantics, f: Field) {
    match f
    case AcceptedIntentDomains => RequiredList(Domain, f, r.accepted).Err?
    case CapabilityDomain =>
      RequiredList(Domain, AcceptedIntentDomains, r.accepted).Ok? && RequiredDomain(r.capability).Err?
    case PositiveUseCases =>
      && RequiredList(Domain, AcceptedIntentDomains, r.accepted).Ok? && RequiredDomain(r.capability).Ok?
      && RequiredList(UseCase, PositiveUseCases, r.positive).Err?
    case _ => false
  }

  ghost predicate TailFault(r: Semantics, f: Field) {
    match f
    case NegativeUseCases => !ListOk(UseCase, f, r.negative)
    case SignalDomains => ListOk(UseCase, NegativeUseCases, r.negative) && !ListOk(Domain, f, r.signals)
    case BackendDomains =>
      && ListOk(UseCase, NegativeUseCases, r.negative) && ListOk(Domain, SignalDomains, r.signals)
      && !ListOk(Domain, f, r.backends)
    case EntityTypes =>
      && ListOk(UseCase, NegativeUseCases, r.negative) && ListOk(Domain, SignalDomains, r.signals)
      && ListOk(Domain, BackendDomains, r.backends) && !ListOk(Domain, f, r.entities)
    case _ => false
  }

  /** The error of a record: of the schema version, or else of the first field that is not fine. */
  lemma RecordErrorIs(r: Semantics)
    requires Normalized(r).Err?
    ensures var e := Normalized(r).error;
      if Spaces(r.schemaVersion) then e == SchemaMissing
      else if TrimSpace(r.schemaVersion) != "mirastack.routing_semantics/v1" then
        e == SchemaUnsupported(TrimSpace(r.schemaVersion))
      else
        && !e.SchemaMissing? && !e.SchemaUnsupported?
        && (HeadFault(r, e.field) || (HeadOk(r) && TailFault(r, e.field)))
  {
    BlankIff(r.schemaVersion);
    if CheckedSchema(r.schemaVersion).Ok? {
      HeadErrorIs(r);
      if Head(r).Ok? {
        TailErrorIs(Head(r).value);
        assert TailFault(r, Normalized(r).error.field);
      }
    }
  }

  ghost predicate Names(e: Error, f: Field) {
    !e.SchemaMissing? && !e.SchemaUnsupported? && e.field == f
  }

  lemma HeadErrorIs(r: Semantics)
    requires CheckedSchema(r.schemaVersion).Ok?
    ensures Head(r).Err? ==>
      var e := Head(r).error;
      !e.SchemaMissing? && !e.SchemaUnsupported? && HeadFault(r, e.field)
    ensures Head(r).Ok? ==> HeadOk(r)
  {
    ListErrorNames(Domain, AcceptedIntentDomains, r.accepted);
    ListErrorNames(UseCase, PositiveUseCases, r.positive);
    CapabilityErrorNames(r.capability);
  }

  lemma CapabilityErrorNames(value: string)
    ensures RequiredDomain(value).Err? ==> Names(RequiredDomain(value).error, CapabilityDomain)
  {
  }

  lemma TailErrorIs(r: Semantics)
    requires Tail(r).Err?
    ensures var e := Tail(r).error;
      !e.SchemaMissing? && !e.SchemaUnsupported? && TailFault(r, e.field)
  {
    ListErrorNames(UseCase, NegativeUseCases, r.negative);
    ListErrorNames(Domain, SignalDomains, r.signals);
    ListErrorNames(Domain, BackendDomains, r.backends);
    ListErrorNames(Domain, EntityTypes, r.entities);
  }

  lemma ListErrorNames(kind: Kind, field: Field, values: seq<string>)
    ensures NormalizedList(kind, field, values).Err? ==> Names(NormalizedList(kind, field, values).error, field)
  {
    if NormalizedList(kind, field, values).Err? {
      ListErrorIs(kind, field, values);
    }
  }

  /** A required list is the list itself, unless all of it is white space. */
  lemma RequiredIs(kind: Kind, field: Field, values: seq<string>)
    ensures RequiredList(kind, field, values) ==
      if NormalizedList(kind, field, values).Ok? && forall v :: v in values ==> Spaces(v)
      then Err(Required(field)) else NormalizedList(kind, field, values)
  {
    RequiredIff(kind, field, values);
    AcceptedIff(kind, field, values);
    forall v | v in values ensures Norm(kind, v) == "" <==> Spaces(v) {
      BlankIff(v);
    }
  }
}
