/**
 * The quality gates of a plugin (`validatePlugin`, validate.go) and the routing part of
 * `actionsToProto` (serve.go).
 */
module PluginGates {
  import opened Text
  import opened Routing
  import RoutingLaws
  import Series

  /** An action, as far as the gates and the routing on the wire go. */
  datatype Action = Action(id: string, description: string, permission: int, stages: seq<int>, routing: Semantics)

  datatype Param = Param(key: string, description: string)

  datatype Info = Info(name: string, version: string, description: string, stages: seq<int>,
                       actions: seq<Action>, params: seq<Param>)

  /** The complaints of the gates; actions and parameters by position. */
  datatype Complaint =
    | NoName | NoVersion | NoDescription | NoStages | NoActions
    | ActionNoId(at: nat)
    | ActionDuplicate(at: nat)
    | ActionNoDescription(at: nat)
    | ActionNoStages(at: nat)
    | ActionRouting(at: nat, error: Error)
    | ParamNoKey(at: nat)
    | ParamNoDescription(at: nat)

  // ---- the gates as a list of complaints -----------------------------------------------------

  function Unless(fine: bool, c: Complaint): seq<Complaint> {
    if fine then [] else [c]
  }

  function PluginComplaints(info: Info): seq<Complaint> {
    Unless(info.name != "", NoName) + Unless(info.version != "", NoVersion)
    + Unless(TrimSpace(info.description) != "", NoDescription) + Unless(info.stages != [], NoStages)
    + Unless(info.actions != [], NoActions)
  }

  predicate IdUsedBefore(actions: seq<Action>, n: nat)
    requires n < |actions|
  {
    exists j :: 0 <= j < n && actions[j].id == actions[n].id
  }

  ghost function RoutingComplaint(n: nat, routing: Semantics): seq<Complaint> {
    var r := Normalized(routing);
    if r.Ok? then [] else [ActionRouting(n, r.error)]
  }

  /** What the gates say of one action; one without an id is not looked at further. */
  ghost function ActionComplaints(actions: seq<Action>, n: nat): seq<Complaint>
    requires n < |actions|
  {
    var a := actions[n];
    if a.id == "" then [ActionNoId(n)]
    else
      Unless(!IdUsedBefore(actions, n), ActionDuplicate(n))
      + Unless(TrimSpace(a.description) != "", ActionNoDescription(n))
      + Unless(a.stages != [], ActionNoStages(n))
      + RoutingComplaint(n, a.routing)
  }

  ghost function ActionFindings(actions: seq<Action>): (r: seq<seq<Complaint>>)
    ensures |r| == |actions| && forall i :: 0 <= i < |r| ==> r[i] == ActionComplaints(actions, i)
  {
    seq(|actions|, i requires 0 <= i < |actions| => ActionComplaints(actions, i))
  }

  function ParamComplaints(params: seq<Param>, n: nat): seq<Complaint>
    requires n < |params|
  {
    if params[n].key == "" then [ParamNoKey(n)]
    else Unless(TrimSpace(params[n].description) != "", ParamNoDescription(n))
  }

  function ParamFindings(params: seq<Param>): (r: seq<seq<Complaint>>)
    ensures |r| == |params| && forall i :: 0 <= i < |r| ==> r[i] == ParamComplaints(params, i)
  {
    seq(|params|, i requires 0 <= i < |params| => ParamComplaints(params, i))
  }

  ghost function Complaints(info: Info): seq<Complaint> {
    PluginComplaints(info) + Series.Flat(ActionFindings(info.actions)) + Series.Flat(ParamFindings(info.params))
  }

  // ---- the method -----------------------------------------------------------------------------

  /** `validatePlugin`: collects every complaint; the plugin passes if there is none. */
  method ValidatePlugin(info: Info) returns (errs: seq<Complaint>)
    ensures errs == Complaints(info)
  {
    errs := CheckInfo(info);
    var actionErrs := ValidateActions(info.actions);
    var paramErrs := ValidateParams(info.params);
    errs := errs + actionErrs + paramErrs;
  }

  /** The checks of the plugin's own fields. */
  method CheckInfo(info: Info) returns (errs: seq<Complaint>)
    ensures errs == PluginComplaints(info)
  {
    errs := [];
    if info.name == "" {
      errs := errs + [NoName];
    }
    if info.version == "" {
      errs := errs + [NoVersion];
    }
    assert errs == Unless(info.name != "", NoName) + Unless(info.version != "", NoVersion);
    if TrimSpace(info.description) == "" {
      errs := errs + [NoDescription];
    }
    if |info.stages| == 0 {
      errs := errs + [NoStages];
    }
    if |info.actions| == 0 {
      errs := errs + [NoActions];
    }
  }

  /** The ids seen among the first `n` actions, blank ones left out. */
  ghost predicate SeenAre(seen: set<string>, actions: seq<Action>, n: nat)
    requires n <= |actions|
  {
    forall id :: id in seen <==> id != "" && exists j :: 0 <= j < n && actions[j].id == id
  }

  lemma SeenStep(seen: set<string>, actions: seq<Action>, n: nat)
    requires n < |actions| && SeenAre(seen, actions, n)
    ensures SeenAre(if actions[n].id == "" then seen else seen + {actions[n].id}, actions, n + 1)
    ensures actions[n].id != "" ==> (actions[n].id in seen <==> IdUsedBefore(actions, n))
  {
  }

  method ValidateActions(actions: seq<Action>) returns (errs: seq<Complaint>)
    ensures errs == Series.Flat(ActionFindings(actions))
  {
    var seen: set<string> := {};
    errs := [];
    ghost var findings := ActionFindings(actions);
    for i := 0 to |actions|
      invariant errs == Series.Flat(findings[..i])
      invariant SeenAre(seen, actions, i)
    {
      Series.FlatStep(findings, i);
      SeenStep(seen, actions, i);
      var found := ValidateAction(actions, i, actions[i].id in seen);
      errs := errs + found;
      if actions[i].id != "" {
        seen := seen + {actions[i].id};
      }
    }
    assert findings[..|actions|] == findings;
  }

  method ValidateAction(actions: seq<Action>, i: nat, duplicate: bool) returns (found: seq<Complaint>)
    requires i < |actions| && (actions[i].id != "" ==> (duplicate <==> IdUsedBefore(actions, i)))
    ensures found == ActionComplaints(actions, i)
  {
    if actions[i].id == "" {
      found := [ActionNoId(i)];
    } else {
      found := ValidateNamedAction(actions, i, duplicate);
    }
  }

  method ValidateNamedAction(actions: seq<Action>, i: nat, duplicate: bool) returns (found: seq<Complaint>)
    requires i < |actions| && actions[i].id != "" && (duplicate <==> IdUsedBefore(actions, i))
    ensures found == ActionComplaints(actions, i)
  {
    var act := actions[i];
    found := [];
    if duplicate {
      found := found + [ActionDuplicate(i)];
    }
    ghost var first := Unless(!duplicate, ActionDuplicate(i));
    assert found == first;
    if TrimSpace(act.description) == "" {
      found := found + [ActionNoDescription(i)];
    }
    ghost var second := first + Unless(TrimSpace(act.description) != "", ActionNoDescription(i));
    assert found == second;
    if |act.stages| == 0 {
      found := found + [ActionNoStages(i)];
    }
    assert found == second + Unless(act.stages != [], ActionNoStages(i));
    var routing := ValidateRouting(i, act.routing);
    found := found + routing;
  }

  method ValidateRouting(i: nat, routing: Semantics) returns (found: seq<Complaint>)
    ensures found == RoutingComplaint(i, routing)
  {
    var normalized := NormalizeAndValidate(routing);
    found := if normalized.Err? then [ActionRouting(i, normalized.error)] else [];
  }

  method ValidateParams(params: seq<Param>) returns (errs: seq<Complaint>)
    ensures errs == Series.Flat(ParamFindings(params))
  {
    errs := [];
    ghost var findings := ParamFindings(params);
    for i := 0 to |params|
      invariant errs == Series.Flat(findings[..i])
    {
      Series.FlatStep(findings, i);
      if params[i].key == "" {
        errs := errs + [ParamNoKey(i)];
        continue;
      }
      if TrimSpace(params[i].description) == "" {
        errs := errs + [ParamNoDescription(i)];
      }
    }
    assert findings[..|params|] == findings;
  }

  // ---- what passing means -------------------------------------------------------------------------

  predicate ActionFine(a: Action) {
    a.id != "" && TrimSpace(a.description) != "" && a.stages != [] && Valid(a.routing)
  }

  predicate ParamFine(p: Param) {
    p.key != "" && TrimSpace(p.description) != ""
  }

  predicate DistinctIds(actions: seq<Action>) {
    forall i, j :: 0 <= i < j < |actions| ==> actions[i].id != actions[j].id
  }

  /** A plugin fit for the catalogue. */
  predicate Compliant(info: Info) {
    && info.name != "" && info.version != "" && TrimSpace(info.description) != "" && info.stages != [] &&
         info.actions != []
    && (forall i :: 0 <= i < |info.actions| ==> ActionFine(info.actions[i]))
    && DistinctIds(info.actions)
    && (forall i :: 0 <= i < |info.params| ==> ParamFine(info.params[i]))
  }

  lemma ActionPassesIff(actions: seq<Action>, n: nat)
    requires n < |actions|
    ensures ActionComplaints(actions, n) == [] <==> ActionFine(actions[n]) && !IdUsedBefore(actions, n)
  {
    NormalizedIff(actions[n].routing);
  }

  ghost predicate ActionPasses(actions: seq<Action>, n: nat)
    requires n < |actions|
  {
    ActionFine(actions[n]) && !IdUsedBefore(actions, n)
  }

  lemma {:induction false} FlatEmptyIff<T>(parts: seq<seq<T>>)
    ensures Series.Flat(parts) == [] <==> forall i :: 0 <= i < |parts| ==> parts[i] == []
  {
    if parts != [] {
      var n := |parts| - 1;
      FlatEmptyIff(parts[..n]);
      Series.FlatStep(parts, n);
      assert parts[..n + 1] == parts;
    }
  }

  lemma ActionsPassIff(actions: seq<Action>)
    ensures Series.Flat(ActionFindings(actions)) == [] <==> forall i :: 0 <= i < |actions| ==> ActionPasses(actions, i)
  {
    FlatEmptyIff(ActionFindings(actions));
    forall i | 0 <= i < |actions| ensures ActionFindings(actions)[i] == [] <==> ActionPasses(actions, i) {
      ActionPassesIff(actions, i);
    }
  }

  lemma ParamsPassIff(params: seq<Param>)
    ensures Series.Flat(ParamFindings(params)) == [] <==> forall i :: 0 <= i < |params| ==> ParamFine(params[i])
  {
    FlatEmptyIff(ParamFindings(params));
    forall i | 0 <= i < |params| ensures ParamFindings(params)[i] == [] <==> ParamFine(params[i]) {
    }
  }

  lemma DistinctIdsIff(actions: seq<Action>)
    ensures DistinctIds(actions) <==> forall i :: 0 <= i < |actions| ==> !IdUsedBefore(actions, i)
  {
    if forall i :: 0 <= i < |actions| ==> !IdUsedBefore(actions, i) {
      forall i, j | 0 <= i < j < |actions| ensures actions[i].id != actions[j].id {
        assert !IdUsedBefore(actions, j);
      }
    }
  }

  /** There is no complaint if and only if the plugin is compliant. */
  lemma PassesIff(info: Info)
    ensures Complaints(info) == [] <==> Compliant(info)
  {
    ActionsPassIff(info.actions);
    ParamsPassIff(info.params);
    DistinctIdsIff(info.actions);
    var a, b, c := PluginComplaints(info), Series.Flat(ActionFindings(info.actions)),
      Series.Flat(ParamFindings(info.params));
    assert a + b + c == [] <==> a == [] && b == [] && c == [];
    assert (forall i :: 0 <= i < |info.actions| ==> ActionPasses(info.actions, i)) <==>
      (forall i :: 0 <= i < |info.actions| ==> ActionFine(info.actions[i])) && DistinctIds(info.actions) by {
      if forall i :: 0 <= i < |info.actions| ==> ActionPasses(info.actions, i) {
        forall i | 0 <= i < |info.actions| ensures ActionFine(info.actions[i]) && !IdUsedBefore(info.actions, i) {
          assert ActionPasses(info.actions, i);
        }
      }
    }
  }

  // ---- what each complaint means ------------------------------------------------------------------

  /** When a complaint is due; an action without an id, or a parameter without a key, gets no other. */
  ghost predicate Due(info: Info, c: Complaint) {
    match c
    case NoName => info.name == ""
    case NoVersion => info.version == ""
    case NoDescription => Spaces(info.description)
    case NoStages => |info.stages| == 0
    case NoActions => |info.actions| == 0
    case ParamNoKey(n) => n < |info.params| && info.params[n].key == ""
    case ParamNoDescription(n) =>
      n < |info.params| && info.params[n].key != "" && Spaces(info.params[n].description)
    case _ => DueOfAction(info.actions, c)
  }

  ghost predicate DueOfAction(actions: seq<Action>, c: Complaint) {
    match c
    case ActionNoId(n) => n < |actions| && actions[n].id == ""
    case ActionDuplicate(n) => n < |actions| && actions[n].id != "" && IdUsedBefore(actions, n)
    case ActionNoDescription(n) => n < |actions| && actions[n].id != "" && Spaces(actions[n].description)
    case ActionNoStages(n) => n < |actions| && actions[n].id != "" && |actions[n].stages| == 0
    case ActionRouting(n, e) => n < |actions| && actions[n].id != "" && Normalized(actions[n].routing) == Err(e)
    case _ => false
  }

  lemma {:induction false} FlatHas<T>(parts: seq<seq<T>>, x: T)
    ensures x in Series.Flat(parts) <==> exists i :: 0 <= i < |parts| && x in parts[i]
  {
    if parts != [] {
      var n := |parts| - 1;
      FlatHas(parts[..n], x);
      Series.FlatStep(parts, n);
      assert parts[..n + 1] == parts;
      if exists i :: 0 <= i < |parts| && x in parts[i] {
        var i :| 0 <= i < |parts| && x in parts[i];
        assert i < n ==> x in parts[..n][i];
      }
    }
  }

  lemma PluginComplaintIff(info: Info, c: Complaint)
    ensures c in PluginComplaints(info) <==>
      (c.NoName? || c.NoVersion? || c.NoDescription? || c.NoStages? || c.NoActions?) && Due(info, c)
  {
    BlankIff(info.description);
  }

  lemma ActionComplaintIff(actions: seq<Action>, c: Complaint, n: nat)
    requires n < |actions|
    ensures c in ActionComplaints(actions, n) <==> DueOfAction(actions, c) && c.at == n
  {
    var a := actions[n];
    BlankIff(a.description);
    RoutingComplaintIff(n, a.routing, c);
    if a.id != "" {
      OneOfFour(Unless(!IdUsedBefore(actions, n), ActionDuplicate(n)),
        Unless(TrimSpace(a.description) != "", ActionNoDescription(n)), Unless(a.stages != [], ActionNoStages(n)),
        RoutingComplaint(n, a.routing), c);
    }
  }

  lemma RoutingComplaintIff(n: nat, routing: Semantics, c: Complaint)
    ensures c in RoutingComplaint(n, routing) <==>
      c.ActionRouting? && c.at == n && Normalized(routing) == Err(c.error)
  {
  }

  lemma OneOfFour<T>(p: seq<T>, q: seq<T>, r: seq<T>, s: seq<T>, x: T)
    ensures x in p + q + r + s <==> x in p || x in q || x in r || x in s
  {
  }

  lemma ParamComplaintIff(info: Info, c: Complaint, n: nat)
    requires n < |info.params|
    ensures c in ParamComplaints(info.params, n) <==>
      (c.ParamNoKey? || c.ParamNoDescription?) && Due(info, c) && c.at == n
  {
    BlankIff(info.params[n].description);
  }

  /** The gates complain of something if and only if it is due. */
  lemma ComplaintIff(info: Info, c: Complaint)
    ensures c in Complaints(info) <==> Due(info, c)
  {
    PluginComplaintIff(info, c);
    FlatHas(ActionFindings(info.actions), c);
    FlatHas(ParamFindings(info.params), c);
    forall n | 0 <= n < |info.actions|
      ensures c in ActionFindings(info.actions)[n] <==> DueOfAction(info.actions, c) && c.at == n
    {
      ActionComplaintIff(info.actions, c, n);
    }
    forall n | 0 <= n < |info.params|
      ensures c in ParamFindings(info.params)[n] <==>
        (c.ParamNoKey? || c.ParamNoDescription?) && Due(info, c) && c.at == n
    {
      ParamComplaintIff(info, c, n);
    }
    if Due(info, c) {
      if c.ParamNoKey? || c.ParamNoDescription? {
        assert c in ParamFindings(info.params)[c.at];
      } else if DueOfAction(info.actions, c) {
        assert c in ActionFindings(info.actions)[c.at];
      }
    }
  }

  // ---- the routing on the wire -----------------------------------------------------------------------

  datatype ActionDef = ActionDef(id: string, description: string, permission: int, stages: seq<int>, routing: Semantics)

  /** The routing sent for an action: normalised if it can be, else as it is. */
  ghost function WireRouting(routing: Semantics): Semantics {
    var r := Normalized(routing);
    if r.Ok? then r.value else routing
  }

  function WireStages(stages: seq<int>): (r: seq<int>)
    ensures |r| == |stages| && forall j :: 0 <= j < |r| ==> r[j] == stages[j] + 1
  {
    seq(|stages|, j requires 0 <= j < |stages| => stages[j] + 1)
  }

  ghost function WireAction(a: Action): ActionDef {
    ActionDef(a.id, a.description, a.permission + 1, WireStages(a.stages), WireRouting(a.routing))
  }

  /**
   * The wire form of an action: id and description kept, permission and stages one above, and the
   * routing in normal form if it is valid.
   */
  ghost predicate SentAs(a: Action, d: ActionDef) {
    && d.id == a.id && d.description == a.description && d.permission == a.permission + 1
    && |d.stages| == |a.stages| && (forall j :: 0 <= j < |a.stages| ==> d.stages[j] == a.stages[j] + 1)
    && if Valid(a.routing) then Normal(d.routing) && Normalized(a.routing) == Ok(d.routing)
       else d.routing == a.routing
  }

  lemma WireActionIs(a: Action)
    ensures SentAs(a, WireAction(a))
  {
    NormalizedIff(a.routing);
    ResultIsNormal(a.routing);
  }

  lemma AllSentAs(actions: seq<Action>)
    ensures forall i :: 0 <= i < |actions| ==> SentAs(actions[i], WireAction(actions[i]))
  {
    forall i | 0 <= i < |actions| ensures SentAs(actions[i], WireAction(actions[i])) {
      WireActionIs(actions[i]);
    }
  }

  /** `actionsToProto`, without the intents and the parameter schemas. */
  method ActionsToProto(actions: seq<Action>) returns (defs: seq<ActionDef>)
    ensures |defs| == |actions|
    ensures forall i :: 0 <= i < |defs| ==> defs[i] == WireAction(actions[i]) && SentAs(actions[i], defs[i])
  {
    defs := [];
    for i := 0 to |actions|
      invariant |defs| == i
      invariant forall j :: 0 <= j < i ==> defs[j] == WireAction(actions[j])
    {
      var def := ActionToProto(actions[i]);
      defs := defs + [def];
    }
    AllSentAs(actions);
  }

  method ActionToProto(act: Action) returns (def: ActionDef)
    ensures def == WireAction(act)
  {
    var stages := StagesToProto(act.stages);
    var routing := RoutingToProto(act.routing);
    def := ActionDef(act.id, act.description, act.permission + 1, stages, routing);
  }

  method StagesToProto(stages: seq<int>) returns (r: seq<int>)
    ensures r == WireStages(stages)
  {
    r := [];
    for j := 0 to |stages|
      invariant |r| == j
      invariant forall k :: 0 <= k < j ==> r[k] == stages[k] + 1
    {
      r := r + [stages[j] + 1];
    }
  }

  method RoutingToProto(original: Semantics) returns (routing: Semantics)
    ensures routing == WireRouting(original)
  {
    routing := original;
    var normalized := NormalizeAndValidate(original);
    if normalized.Ok? {
      routing := normalized.value;
    }
  }

  /** Every routing an accepted plugin sends is in normal form, hence a fixed point of the normaliser. */
  lemma AcceptedRoutingsAreFixed(info: Info)
    requires Complaints(info) == []
    ensures forall i :: 0 <= i < |info.actions| ==>
      var sent := WireAction(info.actions[i]).routing; Normal(sent) && Normalized(sent) == Ok(sent)
  {
    PassesIff(info);
    forall i | 0 <= i < |info.actions|
      ensures var sent := WireAction(info.actions[i]).routing; Normal(sent) && Normalized(sent) == Ok(sent)
    {
      assert ActionFine(info.actions[i]);
      NormalizedIff(info.actions[i].routing);
      ResultIsNormal(info.actions[i].routing);
      FixedIff(WireAction(info.actions[i]).routing);
    }
  }

  /** Sending a routing and sending what was received are the same, whether or not it is valid. */
  lemma WireRoutingIdempotent(routing: Semantics)
    ensures WireRouting(WireRouting(routing)) == WireRouting(routing)
    ensures Normal(WireRouting(routing)) <==> Valid(routing)
  {
    NormalizedIff(routing);
    if Normalized(routing).Ok? {
      ResultIsNormal(routing);
      FixedIff(WireRouting(routing));
    } else {
      FixedIff(routing);
    }
  }

  /** Routings that differ in white space and capitals alone are judged, and if valid sent, alike. */
  lemma VariantsAreSentAlike(r: Semantics, s: Semantics)
    requires RoutingLaws.RecordVariants(r, s)
    ensures Valid(r) <==> Valid(s)
    ensures Valid(r) ==> WireRouting(r) == WireRouting(s)
  {
    RoutingLaws.RecordVariant(r, s);
    NormalizedIff(r);
    NormalizedIff(s);
  }

  /** A plugin that carries the routings as sent. */
  ghost function Resent(info: Info): (r: Info)
    ensures |r.actions| == |info.actions|
    ensures forall i :: 0 <= i < |r.actions| ==>
      r.actions[i] == info.actions[i].(routing := WireRouting(info.actions[i].routing))
  {
    info.(actions := seq(|info.actions|, i requires 0 <= i < |info.actions| =>
      info.actions[i].(routing := WireRouting(info.actions[i].routing))))
  }

  /** The gates judge a plugin and its normalised form alike. */
  lemma GatesIgnoreNormalisation(info: Info)
    ensures Complaints(Resent(info)) == [] <==> Complaints(info) == []
  {
    PassesIff(info);
    PassesIff(Resent(info));
    CompliantOnceSent(info);
  }

  lemma CompliantOnceSent(info: Info)
    ensures Compliant(Resent(info)) <==> Compliant(info)
  {
    var r := Resent(info);
    forall i | 0 <= i < |info.actions| ensures ActionFine(r.actions[i]) <==> ActionFine(info.actions[i]) {
      FineOnceSent(info.actions[i]);
    }
  }

  lemma FineOnceSent(a: Action)
    ensures ActionFine(a.(routing := WireRouting(a.routing))) <==> ActionFine(a)
  {
    ValidOnceSent(a.routing);
  }

  lemma ValidOnceSent(routing: Semantics)
    ensures Valid(WireRouting(routing)) <==> Valid(routing)
  {
    NormalizedIff(routing);
    NormalizedIff(WireRouting(routing));
    if Valid(routing) {
      ResultIsNormal(routing);
      FixedIff(WireRouting(routing));
    }
  }
}
