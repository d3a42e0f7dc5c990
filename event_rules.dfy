/**
 * The rule pipeline of `transformEvent` (examples/event-normalization/transform.ts)
 * as functions on values: eight guarded rules, tried in a fixed order
 * against the cloned document, each one that fires writing one member and
 * appending its name to the list that becomes `provenance.rulesApplied`.
 * The class in event_pipeline.dfy performs the same steps in place.
 */
module EventRules {
  import opened Json
  import opened Text
  import opened CodeUnitOrder
  import opened Kernel
  import opened EventStatus

  // --- makeUncertainty ----------------------------------------------------------

  /** `makeUncertainty(status, reason, references)`: `{"uncertainty": {...}}`. */
  function MakeUncertainty(status: UncertaintyStatus, reason: string, references: seq<string>): (r: Json)
    ensures r.JObj? && KeysOf(r.members) == ["uncertainty"]
    ensures UncertaintyOf(Member(r.members, "uncertainty")) == Some(Uncertainty(status, reason, references))
    ensures WellFormed(r)
  {
    UncertaintyRoundTrip(Uncertainty(status, reason, references));
    JObj([("uncertainty", UncertaintyJson(Uncertainty(status, reason, references)))])
  }

  const DurationReason: string := "Cannot compute duration without endDate"

  /** The value rule 8 writes into `duration`. */
  const DurationAnnotation: Json := MakeUncertainty(Unknown, DurationReason, ["endDate"])

  /** The annotation written out member by member, in the order the literal lists them. */
  lemma DurationAnnotationIs()
    ensures DurationAnnotation == JObj([("uncertainty", JObj([
              ("@type", JStr("Uncertainty")),
              ("status", JStr("unknown")),
              ("reason", JStr("Cannot compute duration without endDate")),
              ("references", JArr([JStr("endDate")]))]))])
  {
    assert StringsJson(["endDate"]).items == [JStr("endDate")];
  }

  // --- The rules ----------------------------------------------------------------

  datatype Rule =
    | NormalizeEventName
    | TrimDescription
    | InferLocationType
    | InferAddressType
    | NormalizeOrganizerName
    | NormalizeEventStatus
    | AnnotateMissingEndDate
    | AnnotateMissingDuration

  /** The name a rule records in `rulesApplied`. */
  function RuleName(rule: Rule): string
  {
    match rule
    case NormalizeEventName => "normalize-event-name"
    case TrimDescription => "trim-description"
    case InferLocationType => "infer-location-type"
    case InferAddressType => "infer-address-type"
    case NormalizeOrganizerName => "normalize-organizer-name"
    case NormalizeEventStatus => "normalize-event-status"
    case AnnotateMissingEndDate => "annotate-missing-end-date"
    case AnnotateMissingDuration => "annotate-missing-duration"
  }

  /** The order in which `transformEvent` tries the rules. */
  const RuleOrder: seq<Rule> := [
    NormalizeEventName, TrimDescription, InferLocationType, InferAddressType,
    NormalizeOrganizerName, NormalizeEventStatus, AnnotateMissingEndDate, AnnotateMissingDuration]

  function Names(rs: seq<Rule>): (r: seq<string>)
    ensures |r| == |rs| && forall i :: 0 <= i < |rs| ==> r[i] == RuleName(rs[i])
  {
    seq(|rs|, i requires 0 <= i < |rs| => RuleName(rs[i]))
  }

  /** Different rules record different names. */
  lemma RuleNameInjective(a: Rule, b: Rule)
    ensures RuleName(a) == RuleName(b) ==> a == b
  {
  }

  /** The top-level member a rule may write; every other member it leaves alone. */
  function Writes(rule: Rule): string
  {
    match rule
    case NormalizeEventName => "name"
    case TrimDescription => "description"
    case InferLocationType => "location"
    case InferAddressType => "location"
    case NormalizeOrganizerName => "organizer"
    case NormalizeEventStatus => "eventStatus"
    case AnnotateMissingEndDate => "endDate"
    case AnnotateMissingDuration => "duration"
  }

  /** `typeof obj[k] === "string"`. */
  function StringAt(ms: Members, k: string): Option<string>
  {
    match Get(ms, k)
    case Some(JStr(s)) => Some(s)
    case _ => None
  }

  /** `obj[k] && typeof obj[k] === "object" && !Array.isArray(obj[k])`. */
  function RecordAt(ms: Members, k: string): Option<Members>
  {
    match Get(ms, k)
    case Some(JObj(m)) => Some(m)
    case _ => None
  }

  /** An object given `@type` `t` unless it has a `@type` already. */
  function WithType(ms: Members, t: string): (r: Members)
    ensures Get(r, "@type") == if HasKey(ms, "@type") then Get(ms, "@type") else Some(JStr(t))
    ensures forall k :: k != "@type" ==> Get(r, k) == Get(ms, k)
    ensures HasKey(ms, "@type") ==> r == ms
  {
    if HasKey(ms, "@type") then ms else Set(ms, "@type", JStr(t))
  }

  /** Rule 3 on a location object. */
  function TypeLocation(loc: Members): Members
  {
    WithType(loc, "Place")
  }

  /** Rule 4 on a location object: its `address`, when that is an object, is typed. */
  function TypeAddress(loc: Members): (r: Members)
    ensures forall k :: k != "address" ==> Get(r, k) == Get(loc, k)
    ensures RecordAt(loc, "address").None? ==> r == loc
    ensures RecordAt(loc, "address").Some? && HasKey(RecordAt(loc, "address").value, "@type") ==> r == loc
    ensures RecordAt(loc, "address").Some? ==>
              RecordAt(r, "address") == Some(WithType(RecordAt(loc, "address").value, "PostalAddress"))
  {
    match RecordAt(loc, "address")
    case Some(addr) =>
      if HasKey(addr, "@type") then loc else Set(loc, "address", JObj(WithType(addr, "PostalAddress")))
    case None => loc
  }

  /** Rule 5 on an organizer object: a string `name` is title-cased. */
  function TitleOrganizer(org: Members): (r: Members)
    ensures forall k :: k != "name" ==> Get(r, k) == Get(org, k)
    ensures StringAt(org, "name").None? ==> r == org
    ensures StringAt(org, "name").Some? ==> StringAt(r, "name") == Some(TitleCase(StringAt(org, "name").value))
  {
    match StringAt(org, "name")
    case Some(n) => Set(org, "name", JStr(TitleCase(n)))
    case None => org
  }

  /**
   * `r` is `out` after an assignment to member `k`: every other member keeps
   * its value, the existing members keep their order, and `k` is appended
   * exactly when it was missing.
   */
  ghost predicate Assigns(out: Members, r: Members, k: string)
  {
    && (forall k' :: k' != k ==> Get(r, k') == Get(out, k'))
    && HasKey(r, k)
    && |out| <= |r| && KeysOf(r)[..|out|] == KeysOf(out)
    && (|r| == |out| <==> HasKey(out, k))
    && (UniqueKeys(out) ==> UniqueKeys(r))
  }

  // Each rule block: `None` when its guard fails, else the document after its write.

  /** Rule 1: a string `name` is title-cased. */
  function NameRule(out: Members): (r: Option<Members>)
    ensures r.Some? <==> StringAt(out, "name").Some?
    ensures r.Some? ==> Get(r.value, "name") == Some(JStr(TitleCase(StringAt(out, "name").value)))
  {
    match StringAt(out, "name")
    case Some(s) => Some(Set(out, "name", JStr(TitleCase(s))))
    case None => None
  }

  /** Rule 2: a string `description` is trimmed. */
  function DescriptionRule(out: Members): (r: Option<Members>)
    ensures r.Some? <==> StringAt(out, "description").Some?
    ensures r.Some? ==> Get(r.value, "description") == Some(JStr(Trim(StringAt(out, "description").value)))
  {
    match StringAt(out, "description")
    case Some(s) => Some(Set(out, "description", JStr(Trim(s))))
    case None => None
  }

  /** Rule 3: a location object without `@type` is typed `"Place"`. */
  function LocationRule(out: Members): (r: Option<Members>)
    ensures r.Some? <==> RecordAt(out, "location").Some? && !HasKey(RecordAt(out, "location").value, "@type")
    ensures r.Some? ==> Get(r.value, "location") == Some(JObj(TypeLocation(RecordAt(out, "location").value)))
  {
    match RecordAt(out, "location")
    case Some(loc) => if HasKey(loc, "@type") then None else Some(Set(out, "location", JObj(TypeLocation(loc))))
    case None => None
  }

  /** Rule 4: an address object without `@type` inside a location object is typed `"PostalAddress"`. */
  function AddressRule(out: Members): (r: Option<Members>)
    ensures r.Some? <==> && RecordAt(out, "location").Some?
                         && RecordAt(RecordAt(out, "location").value, "address").Some?
                         && !HasKey(RecordAt(RecordAt(out, "location").value, "address").value, "@type")
    ensures r.Some? ==> Get(r.value, "location") == Some(JObj(TypeAddress(RecordAt(out, "location").value)))
  {
    match RecordAt(out, "location")
    case Some(loc) =>
      (match RecordAt(loc, "address")
       case Some(addr) => if HasKey(addr, "@type") then None else Some(Set(out, "location", JObj(TypeAddress(loc))))
       case None => None)
    case None => None
  }

  /** Rule 5: an organizer object's string `name` is title-cased. */
  function OrganizerRule(out: Members): (r: Option<Members>)
    ensures r.Some? <==> RecordAt(out, "organizer").Some? && StringAt(RecordAt(out, "organizer").value, "name").Some?
    ensures r.Some? ==> Get(r.value, "organizer") == Some(JObj(TitleOrganizer(RecordAt(out, "organizer").value)))
  {
    match RecordAt(out, "organizer")
    case Some(org) => if StringAt(org, "name").Some? then Some(Set(out, "organizer", JObj(TitleOrganizer(org)))) else None
    case None => None
  }

  /** Rule 6: an `eventStatus` that normalisation changes is replaced. */
  function StatusRule(out: Members): (r: Option<Members>)
    ensures r.Some? <==> Get(out, "eventStatus").Some? && NormalizeStatus(Get(out, "eventStatus").value) != Get(out, "eventStatus").value
    ensures r.Some? ==> Get(r.value, "eventStatus") == Some(NormalizeStatus(Get(out, "eventStatus").value))
  {
    match Get(out, "eventStatus")
    case Some(raw) => if NormalizeStatus(raw) != raw then Some(Set(out, "eventStatus", NormalizeStatus(raw))) else None
    case None => None
  }

  /** What rule 6 leaves: whether it records its name, and what `eventStatus` then holds. */
  datatype StatusOutcome = StatusOutcome(recorded: bool, status: Option<StatusValue>)

  /**
   * Rule 6 with `normalizeStatus` as written, whose result can be a member
   * of `Object.prototype` instead of a JSON value.
   */
  function StatusRuleAsWritten(out: Members): StatusOutcome
  {
    match Get(out, "eventStatus")
    case Some(raw) =>
      var normalized := NormalizeStatusAsWritten(raw);
      if normalized != JsonValue(raw) then StatusOutcome(true, Some(normalized))
      else StatusOutcome(false, Some(JsonValue(raw)))
    case None => StatusOutcome(false, None)
  }

  function AsStatusValue(v: Option<Json>): Option<StatusValue>
  {
    match v case Some(j) => Some(JsonValue(j)) case None => None
  }

  /**
   * Away from the statuses of the findings, rule 6 as written and the
   * corrected rule 6 record the same thing and leave the same status.
   */
  lemma StatusRuleAgrees(out: Members)
    requires Get(out, "eventStatus").Some? && Get(out, "eventStatus").value.JStr? ==>
               var key := Lower(Get(out, "eventStatus").value.s);
               key != "movedonline" && key != "constructor" && key != "__proto__"
    ensures StatusRuleAsWritten(out).recorded == StatusRule(out).Some?
    ensures StatusRuleAsWritten(out).status
         == AsStatusValue(Get(if StatusRule(out).Some? then StatusRule(out).value else out, "eventStatus"))
  {
    if Get(out, "eventStatus").Some? {
      NormalizeStatusAgrees(Get(out, "eventStatus").value);
    }
  }

  /** Rule 7: a missing `endDate` becomes `null`. */
  function EndDateRule(out: Members): (r: Option<Members>)
    ensures r.Some? <==> !HasKey(out, "endDate")
    ensures r.Some? ==> Get(r.value, "endDate") == Some(JNull)
  {
    if HasKey(out, "endDate") then None else Some(Set(out, "endDate", JNull))
  }

  /** Rule 8: a missing `duration` is annotated when `endDate` is `null`. */
  function DurationRule(out: Members): (r: Option<Members>)
    ensures r.Some? <==> !HasKey(out, "duration") && Get(out, "endDate") == Some(JNull)
    ensures r.Some? ==> Get(r.value, "duration") == Some(DurationAnnotation)
  {
    if !HasKey(out, "duration") && Get(out, "endDate") == Some(JNull)
    then Some(Set(out, "duration", DurationAnnotation))
    else None
  }

  /** One rule block tried on the document being built. */
  function Effect(rule: Rule, out: Members): Option<Members>
  {
    match rule
    case NormalizeEventName => NameRule(out)
    case TrimDescription => DescriptionRule(out)
    case InferLocationType => LocationRule(out)
    case InferAddressType => AddressRule(out)
    case NormalizeOrganizerName => OrganizerRule(out)
    case NormalizeEventStatus => StatusRule(out)
    case AnnotateMissingEndDate => EndDateRule(out)
    case AnnotateMissingDuration => DurationRule(out)
  }

  /** Every rule block is an assignment to the one member it writes. */
  lemma EffectAssigns(rule: Rule, out: Members)
    ensures Effect(rule, out).Some? ==> Assigns(out, Effect(rule, out).value, Writes(rule))
  {
  }

  /** The clone being rewritten and the names recorded so far. */
  datatype Draft = Draft(out: Members, rules: seq<string>)

  /** One rule block: if the guard holds, write and record. */
  function Step(rule: Rule, d: Draft): Draft
  {
    match Effect(rule, d.out)
    case Some(o) => Draft(o, d.rules + [RuleName(rule)])
    case None => d
  }

  /** The rule blocks `rs`, in order. */
  function Run(rs: seq<Rule>, d: Draft): Draft
    decreases |rs|
  {
    if rs == [] then d else Run(rs[1..], Step(rs[0], d))
  }

  /** `transformEvent(input)`: the kernel's validation, the rules, then provenance. */
  function NormalizeEvent(input: Input): Json
  {
    if !IsRecord(input) then MakeError(InvalidInput, InvalidInputMessage)
    else if !HasKey(input.v.members, "@context") then MakeError(InvalidContext, InvalidContextMessage)
    else
      var d := Run(RuleOrder, Draft(input.v.members, []));
      JObj(Attach(d.out, d.rules))
  }
}
