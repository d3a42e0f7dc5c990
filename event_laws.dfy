/**
 * What `transformEvent` guarantees, proved about the rule pipeline of
 * EventRules: which rules are recorded, the value each touched member ends
 * with, the members no rule touches, the validation shell shared with the
 * kernel, and idempotence on the document.
 */
module EventLaws {
  import opened Json
  import opened Text
  import opened CodeUnitOrder
  import opened Kernel
  import opened EventStatus
  import opened EventRules

  // --- Firing, read off the input ---------------------------------------------

  /**
   * Whether a rule fires, decided on the input document: each guard reads
   * only the member its rule writes, except the duration rule's, which also
   * reads the `endDate` left by rule 7.
   */
  predicate FiresOn(rule: Rule, doc: Members)
  {
    match rule
    case NormalizeEventName => StringAt(doc, "name").Some?
    case TrimDescription => StringAt(doc, "description").Some?
    case InferLocationType =>
      RecordAt(doc, "location").Some? && !HasKey(RecordAt(doc, "location").value, "@type")
    case InferAddressType =>
      && RecordAt(doc, "location").Some?
      && RecordAt(RecordAt(doc, "location").value, "address").Some?
      && !HasKey(RecordAt(RecordAt(doc, "location").value, "address").value, "@type")
    case NormalizeOrganizerName =>
      RecordAt(doc, "organizer").Some? && StringAt(RecordAt(doc, "organizer").value, "name").Some?
    case NormalizeEventStatus =>
      HasKey(doc, "eventStatus") && NormalizeStatus(Get(doc, "eventStatus").value) != Get(doc, "eventStatus").value
    case AnnotateMissingEndDate => !HasKey(doc, "endDate")
    case AnnotateMissingDuration =>
      !HasKey(doc, "duration") && (!HasKey(doc, "endDate") || Get(doc, "endDate") == Some(JNull))
  }

  /** The names of the rules of `rs` that fire on `doc`, in the order of `rs`. */
  function Fired(rs: seq<Rule>, doc: Members): seq<string>
  {
    if rs == [] then [] else (if FiresOn(rs[0], doc) then [RuleName(rs[0])] else []) + Fired(rs[1..], doc)
  }

  /** `a` occurs in `b` in order, possibly with gaps. */
  predicate Subsequence(a: seq<string>, b: seq<string>)
    decreases |b|
  {
    if a == [] then true
    else if b == [] then false
    else if a[0] == b[0] then Subsequence(a[1..], b[1..])
    else Subsequence(a, b[1..])
  }

  // --- Running the rules in stages ----------------------------------------------

  lemma {:induction false} RunAppend(a: seq<Rule>, b: seq<Rule>, d: Draft)
    ensures Run(a + b, d) == Run(b, Run(a, d))
  {
    if a == [] {
      assert a + b == b;
    } else {
      assert (a + b)[0] == a[0];
      assert (a + b)[1..] == a[1..] + b;
      RunAppend(a[1..], b, Step(a[0], d));
    }
  }

  /** The draft after the first `i` rule blocks. */
  function Stage(doc: Members, i: nat): Draft
    requires i <= |RuleOrder|
  {
    if i == 0 then Draft(doc, []) else Step(RuleOrder[i - 1], Stage(doc, i - 1))
  }

  lemma {:induction false} StageIsRun(doc: Members, i: nat)
    requires i <= |RuleOrder|
    ensures Stage(doc, i) == Run(RuleOrder[..i], Draft(doc, []))
  {
    if i > 0 {
      StageIsRun(doc, i - 1);
      assert RuleOrder[..i] == RuleOrder[..i - 1] + [RuleOrder[i - 1]];
      RunAppend(RuleOrder[..i - 1], [RuleOrder[i - 1]], Draft(doc, []));
      assert [RuleOrder[i - 1]][1..] == [];
    }
  }

  /** The draft after block `i + 1` is block `i`'s rule applied to the draft before it. */
  lemma StageNextIs(doc: Members, i: nat, rule: Rule)
    requires i < |RuleOrder| && RuleOrder[i] == rule
    ensures Stage(doc, i + 1) == Step(rule, Stage(doc, i))
    ensures Stage(doc, i + 1).out == (if Effect(rule, Stage(doc, i).out).Some? then Effect(rule, Stage(doc, i).out).value else Stage(doc, i).out)
  {
  }

  lemma StageEnds(doc: Members)
    ensures Stage(doc, 0) == Draft(doc, [])
    ensures Stage(doc, |RuleOrder|) == Run(RuleOrder, Draft(doc, []))
  {
    StageIsRun(doc, |RuleOrder|);
    assert RuleOrder[..|RuleOrder|] == RuleOrder;
  }

  /** Members the rule blocks `i` to `j` do not write keep their values. */
  lemma {:induction false} StageFrame(doc: Members, i: nat, j: nat, k: string)
    requires i <= j <= |RuleOrder|
    requires forall m :: i <= m < j ==> Writes(RuleOrder[m]) != k
    ensures Get(Stage(doc, j).out, k) == Get(Stage(doc, i).out, k)
  {
    if i < j {
      StageFrame(doc, i, j - 1, k);
      EffectAssigns(RuleOrder[j - 1], Stage(doc, j - 1).out);
    }
  }

  /** The value a member has after the first `j` blocks, when none of them writes it. */
  lemma StageKeeps(doc: Members, j: nat, k: string)
    requires j <= |RuleOrder|
    requires forall m :: 0 <= m < j ==> Writes(RuleOrder[m]) != k
    ensures Get(Stage(doc, j).out, k) == Get(doc, k)
  {
    StageFrame(doc, 0, j, k);
    StageEnds(doc);
  }

  /** The value a member has at the end, when the blocks after `j` do not write it. */
  lemma StageFinal(doc: Members, j: nat, k: string)
    requires j <= |RuleOrder|
    requires forall m :: j <= m < |RuleOrder| ==> Writes(RuleOrder[m]) != k
    ensures Get(Run(RuleOrder, Draft(doc, [])).out, k) == Get(Stage(doc, j).out, k)
  {
    StageFrame(doc, j, |RuleOrder|, k);
    StageEnds(doc);
  }

  // --- The value each rule leaves -----------------------------------------------

  // What each rule leaves in its member, as a function of the member's input value.

  /** Rule 1: a string is title-cased. */
  function TitledName(v: Option<Json>): Option<Json>
  {
    match v case Some(JStr(s)) => Some(JStr(TitleCase(s))) case _ => v
  }

  /** Rule 2: a string is trimmed. */
  function TrimmedText(v: Option<Json>): Option<Json>
  {
    match v case Some(JStr(s)) => Some(JStr(Trim(s))) case _ => v
  }

  /** Rule 3 alone: an object is typed `"Place"` unless it has a type. */
  function PlaceTyped(v: Option<Json>): Option<Json>
  {
    match v case Some(JObj(loc)) => Some(JObj(TypeLocation(loc))) case _ => v
  }

  /** Rules 3 and 4: the location and an address object inside it are typed. */
  function TypedLocation(v: Option<Json>): Option<Json>
  {
    match v case Some(JObj(loc)) => Some(JObj(TypeAddress(TypeLocation(loc)))) case _ => v
  }

  /** Rule 5: an object's string `name` is title-cased. */
  function TitledOrganizer(v: Option<Json>): Option<Json>
  {
    match v case Some(JObj(org)) => Some(JObj(TitleOrganizer(org))) case _ => v
  }

  /** Rule 6: a present value is normalised. */
  function NormalizedStatus(v: Option<Json>): Option<Json>
  {
    match v case Some(x) => Some(NormalizeStatus(x)) case None => None
  }

  /** Rule 7: a missing value becomes `null`. */
  function FilledEndDate(v: Option<Json>): Option<Json>
  {
    if v.None? then Some(JNull) else v
  }

  /** Rule 8, given the input's `duration` and `endDate`. */
  function AnnotatedDuration(duration: Option<Json>, endDate: Option<Json>): Option<Json>
  {
    if duration.None? && FilledEndDate(endDate) == Some(JNull) then Some(DurationAnnotation) else duration
  }

  lemma NameStage(doc: Members)
    ensures Get(Stage(doc, 1).out, "name") == TitledName(Get(doc, "name"))
    ensures Effect(RuleOrder[0], Stage(doc, 0).out).Some? == FiresOn(RuleOrder[0], doc)
  {
    StageEnds(doc);
    StageNextIs(doc, 0, NormalizeEventName);
    NameStep(Stage(doc, 0).out, doc);
  }

  /** Rule 1 applied to a draft whose name is the input's. */
  lemma NameStep(out: Members, doc: Members)
    requires Get(out, "name") == Get(doc, "name")
    ensures NameRule(out).Some? == FiresOn(NormalizeEventName, doc)
    ensures Get(if NameRule(out).Some? then NameRule(out).value else out, "name") == TitledName(Get(doc, "name"))
  {
    assert StringAt(out, "name") == StringAt(doc, "name");
  }

  lemma DescriptionStage(doc: Members)
    ensures Get(Stage(doc, 2).out, "description") == TrimmedText(Get(doc, "description"))
    ensures Effect(RuleOrder[1], Stage(doc, 1).out).Some? == FiresOn(RuleOrder[1], doc)
  {
    StageKeeps(doc, 1, "description");
    StageNextIs(doc, 1, TrimDescription);
    DescriptionStep(Stage(doc, 1).out, doc);
  }

  /** Rule 2 applied to a draft whose description is the input's. */
  lemma DescriptionStep(out: Members, doc: Members)
    requires Get(out, "description") == Get(doc, "description")
    ensures DescriptionRule(out).Some? == FiresOn(TrimDescription, doc)
    ensures Get(if DescriptionRule(out).Some? then DescriptionRule(out).value else out, "description")
         == TrimmedText(Get(doc, "description"))
  {
    assert StringAt(out, "description") == StringAt(doc, "description");
  }

  lemma LocationStage(doc: Members)
    ensures Get(Stage(doc, 3).out, "location") == PlaceTyped(Get(doc, "location"))
    ensures Effect(RuleOrder[2], Stage(doc, 2).out).Some? == FiresOn(RuleOrder[2], doc)
  {
    StageKeeps(doc, 2, "location");
    StageNextIs(doc, 2, InferLocationType);
    LocationStep(Stage(doc, 2).out, doc);
  }

  /** Rule 3 applied to a draft whose location is the input's. */
  lemma LocationStep(out: Members, doc: Members)
    requires Get(out, "location") == Get(doc, "location")
    ensures LocationRule(out).Some? == LocationRule(doc).Some?
    ensures Get(if LocationRule(out).Some? then LocationRule(out).value else out, "location") == PlaceTyped(Get(doc, "location"))
  {
    assert RecordAt(out, "location") == RecordAt(doc, "location");
  }

  /** Rule 4 applied to a draft whose location is the one rule 3 leaves. */
  lemma AddressStep(out: Members, doc: Members)
    requires Get(out, "location") == PlaceTyped(Get(doc, "location"))
    ensures AddressRule(out).Some? == AddressRule(doc).Some?
    ensures Get(if AddressRule(out).Some? then AddressRule(out).value else out, "location") == TypedLocation(Get(doc, "location"))
  {
    match RecordAt(doc, "location")
    case Some(loc) =>
      var typed := TypeLocation(loc);
      assert RecordAt(out, "location") == Some(typed);
      assert RecordAt(typed, "address") == RecordAt(loc, "address");
    case None =>
      assert RecordAt(out, "location").None?;
  }

  lemma AddressStage(doc: Members)
    ensures Get(Stage(doc, 4).out, "location") == TypedLocation(Get(doc, "location"))
    ensures Effect(RuleOrder[3], Stage(doc, 3).out).Some? == FiresOn(RuleOrder[3], doc)
  {
    LocationStage(doc);
    StageNextIs(doc, 3, InferAddressType);
    AddressStep(Stage(doc, 3).out, doc);
  }

  lemma OrganizerStage(doc: Members)
    ensures Get(Stage(doc, 5).out, "organizer") == TitledOrganizer(Get(doc, "organizer"))
    ensures Effect(RuleOrder[4], Stage(doc, 4).out).Some? == FiresOn(RuleOrder[4], doc)
  {
    StageKeeps(doc, 4, "organizer");
    StageNextIs(doc, 4, NormalizeOrganizerName);
    OrganizerStep(Stage(doc, 4).out, doc);
  }

  /** Rule 5 applied to a draft whose organizer is the input's. */
  lemma OrganizerStep(out: Members, doc: Members)
    requires Get(out, "organizer") == Get(doc, "organizer")
    ensures OrganizerRule(out).Some? == OrganizerRule(doc).Some?
    ensures Get(if OrganizerRule(out).Some? then OrganizerRule(out).value else out, "organizer")
         == TitledOrganizer(Get(doc, "organizer"))
  {
    assert RecordAt(out, "organizer") == RecordAt(doc, "organizer");
  }

  lemma StatusStage(doc: Members)
    ensures Get(Stage(doc, 6).out, "eventStatus") == NormalizedStatus(Get(doc, "eventStatus"))
    ensures Effect(RuleOrder[5], Stage(doc, 5).out).Some? == FiresOn(RuleOrder[5], doc)
  {
    StageKeeps(doc, 5, "eventStatus");
    StageNextIs(doc, 5, NormalizeEventStatus);
    StatusStep(Stage(doc, 5).out, doc);
  }

  /** Rule 6 applied to a draft whose status is the input's. */
  lemma StatusStep(out: Members, doc: Members)
    requires Get(out, "eventStatus") == Get(doc, "eventStatus")
    ensures StatusRule(out).Some? == FiresOn(NormalizeEventStatus, doc)
    ensures Get(if StatusRule(out).Some? then StatusRule(out).value else out, "eventStatus")
         == NormalizedStatus(Get(doc, "eventStatus"))
  {
  }

  lemma EndDateStage(doc: Members)
    ensures Get(Stage(doc, 7).out, "endDate") == FilledEndDate(Get(doc, "endDate"))
    ensures Effect(RuleOrder[6], Stage(doc, 6).out).Some? == FiresOn(RuleOrder[6], doc)
  {
    StageKeeps(doc, 6, "endDate");
    StageNextIs(doc, 6, AnnotateMissingEndDate);
    EndDateStep(Stage(doc, 6).out, doc);
  }

  /** Rule 7 applied to a draft whose end date is the input's. */
  lemma EndDateStep(out: Members, doc: Members)
    requires Get(out, "endDate") == Get(doc, "endDate")
    ensures EndDateRule(out).Some? == FiresOn(AnnotateMissingEndDate, doc)
    ensures Get(if EndDateRule(out).Some? then EndDateRule(out).value else out, "endDate")
         == FilledEndDate(Get(doc, "endDate"))
  {
  }

  lemma DurationStage(doc: Members)
    ensures Get(Stage(doc, 8).out, "duration") == AnnotatedDuration(Get(doc, "duration"), Get(doc, "endDate"))
    ensures Effect(RuleOrder[7], Stage(doc, 7).out).Some? == FiresOn(RuleOrder[7], doc)
  {
    StageKeeps(doc, 7, "duration");
    EndDateStage(doc);
    StageNextIs(doc, 7, AnnotateMissingDuration);
    DurationStep(Stage(doc, 7).out, doc);
  }

  /** Rule 8 applied to a draft whose duration is the input's and whose end date rule 7 left. */
  lemma DurationStep(out: Members, doc: Members)
    requires Get(out, "duration") == Get(doc, "duration")
    requires Get(out, "endDate") == FilledEndDate(Get(doc, "endDate"))
    ensures DurationRule(out).Some? == FiresOn(AnnotateMissingDuration, doc)
    ensures Get(if DurationRule(out).Some? then DurationRule(out).value else out, "duration")
         == AnnotatedDuration(Get(doc, "duration"), Get(doc, "endDate"))
  {
  }

  /**
   * A value rule block `i` leaves in the member it writes is still there at
   * the end; block 3 is excluded, since block 4 writes the location again.
   */
  lemma Persists(doc: Members, i: nat, k: string, x: Option<Json>)
    requires 0 < i <= |RuleOrder| && i != 3 && k == Writes(RuleOrder[i - 1]) && Get(Stage(doc, i).out, k) == x
    ensures Get(Stage(doc, |RuleOrder|).out, k) == x
  {
    forall m | i <= m < |RuleOrder|
      ensures Writes(RuleOrder[m]) != k
    {
      LaterBlocksWriteElsewhere(i - 1, m);
    }
    StageFrame(doc, i, |RuleOrder|, k);
  }

  /** No later block writes the member an earlier block writes, except rule 4 after rule 3. */
  lemma LaterBlocksWriteElsewhere(j: nat, m: nat)
    requires j < m < |RuleOrder| && !(j == 2 && m == 3)
    ensures Writes(RuleOrder[m]) != Writes(RuleOrder[j])
  {
  }

  /** The final draft holds, in each member a rule writes, what that rule leaves there. */
  lemma FinalName(doc: Members)
    ensures Get(Stage(doc, |RuleOrder|).out, "name") == TitledName(Get(doc, "name"))
  {
    NameStage(doc);
    Persists(doc, 1, "name", TitledName(Get(doc, "name")));
  }

  lemma FinalDescription(doc: Members)
    ensures Get(Stage(doc, |RuleOrder|).out, "description") == TrimmedText(Get(doc, "description"))
  {
    DescriptionStage(doc);
    Persists(doc, 2, "description", TrimmedText(Get(doc, "description")));
  }

  lemma FinalLocation(doc: Members)
    ensures Get(Stage(doc, |RuleOrder|).out, "location") == TypedLocation(Get(doc, "location"))
  {
    AddressStage(doc);
    Persists(doc, 4, "location", TypedLocation(Get(doc, "location")));
  }

  lemma FinalOrganizer(doc: Members)
    ensures Get(Stage(doc, |RuleOrder|).out, "organizer") == TitledOrganizer(Get(doc, "organizer"))
  {
    OrganizerStage(doc);
    Persists(doc, 5, "organizer", TitledOrganizer(Get(doc, "organizer")));
  }

  lemma FinalStatus(doc: Members)
    ensures Get(Stage(doc, |RuleOrder|).out, "eventStatus") == NormalizedStatus(Get(doc, "eventStatus"))
  {
    StatusStage(doc);
    Persists(doc, 6, "eventStatus", NormalizedStatus(Get(doc, "eventStatus")));
  }

  lemma FinalEndDate(doc: Members)
    ensures Get(Stage(doc, |RuleOrder|).out, "endDate") == FilledEndDate(Get(doc, "endDate"))
  {
    EndDateStage(doc);
    Persists(doc, 7, "endDate", FilledEndDate(Get(doc, "endDate")));
  }

  /** At every block, the guard holds exactly when it holds of the input, in the sense of `FiresOn`. */
  lemma StageFires(doc: Members, i: nat)
    requires i < |RuleOrder|
    ensures Effect(RuleOrder[i], Stage(doc, i).out).Some? == FiresOn(RuleOrder[i], doc)
  {
    if i == 0 { NameStage(doc); }
    else if i == 1 { DescriptionStage(doc); }
    else if i == 2 { LocationStage(doc); }
    else if i == 3 { AddressStage(doc); }
    else if i == 4 { OrganizerStage(doc); }
    else if i == 5 { StatusStage(doc); }
    else if i == 6 { EndDateStage(doc); }
    else { DurationStage(doc); }
  }

  // --- rulesApplied -------------------------------------------------------------

  lemma {:induction false} FiredAppend(a: seq<Rule>, b: seq<Rule>, doc: Members)
    ensures Fired(a + b, doc) == Fired(a, doc) + Fired(b, doc)
  {
    if a == [] {
      assert a + b == b;
    } else {
      assert (a + b)[0] == a[0];
      assert (a + b)[1..] == a[1..] + b;
      FiredAppend(a[1..], b, doc);
    }
  }

  lemma {:induction false} StageRules(doc: Members, i: nat)
    requires i <= |RuleOrder|
    ensures Stage(doc, i).rules == Fired(RuleOrder[..i], doc)
  {
    if i == 0 {
      StageEnds(doc);
    } else {
      StageRules(doc, i - 1);
      StageFires(doc, i - 1);
      StepRecords(RuleOrder[i - 1], Stage(doc, i - 1));
      assert RuleOrder[..i] == RuleOrder[..i - 1] + [RuleOrder[i - 1]];
      FiredAppend(RuleOrder[..i - 1], [RuleOrder[i - 1]], doc);
      FiredOne(RuleOrder[i - 1], doc);
    }
  }

  /** A block appends its rule's name exactly when its guard holds. */
  lemma StepRecords(rule: Rule, d: Draft)
    ensures Step(rule, d).rules == d.rules + (if Effect(rule, d.out).Some? then [RuleName(rule)] else [])
  {
  }

  lemma FiredOne(rule: Rule, doc: Members)
    ensures Fired([rule], doc) == if FiresOn(rule, doc) then [RuleName(rule)] else []
  {
    assert [rule][1..] == [];
  }

  /** `rulesApplied` names exactly the rules that fire, in rule order. */
  lemma RulesApplied(doc: Members)
    ensures Run(RuleOrder, Draft(doc, [])).rules == Fired(RuleOrder, doc)
  {
    StageRules(doc, |RuleOrder|);
    StageEnds(doc);
    assert RuleOrder[..|RuleOrder|] == RuleOrder;
  }

  lemma {:induction false} SubsequenceDrop(a: seq<string>, b: seq<string>)
    requires a != [] && Subsequence(a, b)
    ensures Subsequence(a[1..], b)
    decreases |b|, 1
  {
    if a[0] == b[0] {
      SubsequenceCons(a[1..], b);
    } else {
      SubsequenceDrop(a, b[1..]);
      SubsequenceCons(a[1..], b);
    }
  }

  /** Allowing one more element in front keeps a subsequence one. */
  lemma {:induction false} SubsequenceCons(a: seq<string>, b: seq<string>)
    requires b != [] && Subsequence(a, b[1..])
    ensures Subsequence(a, b)
    decreases |b|, 0
  {
    if a != [] && a[0] == b[0] {
      SubsequenceDrop(a, b[1..]);
    }
  }

  lemma {:induction false} FiredSubsequence(rs: seq<Rule>, doc: Members)
    ensures Subsequence(Fired(rs, doc), Names(rs))
  {
    if rs != [] {
      FiredSubsequence(rs[1..], doc);
      assert Names(rs) == [RuleName(rs[0])] + Names(rs[1..]);
      var tail := Fired(rs[1..], doc);
      if FiresOn(rs[0], doc) {
        assert ([RuleName(rs[0])] + tail)[1..] == tail;
      } else {
        assert Fired(rs, doc) == tail;
        assert Names(rs)[1..] == Names(rs[1..]);
        SubsequenceCons(tail, Names(rs));
      }
    }
  }

  lemma {:induction false} FiredMembers(rs: seq<Rule>, doc: Members, rule: Rule)
    ensures RuleName(rule) in Fired(rs, doc) <==> rule in rs && FiresOn(rule, doc)
  {
    if rs != [] {
      FiredMembers(rs[1..], doc, rule);
      RuleNameInjective(rule, rs[0]);
      assert rs == [rs[0]] + rs[1..];
    }
  }

  lemma ConsDistinct(x: string, tail: seq<string>)
    requires Distinct(tail) && x !in tail
    ensures Distinct([x] + tail)
  {
    var all := [x] + tail;
    forall i, j | 0 <= i < j < |all|
      ensures all[i] != all[j]
    {
      if i == 0 {
        assert all[j] == tail[j - 1];
      } else {
        assert all[i] == tail[i - 1] && all[j] == tail[j - 1];
      }
    }
  }

  lemma {:induction false} FiredDistinct(rs: seq<Rule>, doc: Members)
    requires forall i, j :: 0 <= i < j < |rs| ==> rs[i] != rs[j]
    ensures Distinct(Fired(rs, doc))
  {
    if rs != [] {
      FiredDistinct(rs[1..], doc);
      var tail := Fired(rs[1..], doc);
      if FiresOn(rs[0], doc) {
        FiredMembers(rs[1..], doc, rs[0]);
        assert rs[0] !in rs[1..];
        ConsDistinct(RuleName(rs[0]), tail);
      }
    }
  }

  /**
   * `rulesApplied` lists rule names in the fixed rule order, possibly with
   * gaps, each at most once; a rule's name is in it exactly when the rule
   * fires.
   */
  lemma RulesAppliedInOrder(doc: Members, rule: Rule)
    ensures Subsequence(Run(RuleOrder, Draft(doc, [])).rules, Names(RuleOrder))
    ensures Distinct(Run(RuleOrder, Draft(doc, [])).rules)
    ensures RuleName(rule) in Run(RuleOrder, Draft(doc, [])).rules <==> FiresOn(rule, doc)
  {
    RulesApplied(doc);
    RuleOrderComplete(rule);
    FiredInOrder(RuleOrder, doc, rule);
  }

  /** The fixed order lists every rule, each once. */
  lemma RuleOrderComplete(rule: Rule)
    ensures rule in RuleOrder
    ensures forall i, j :: 0 <= i < j < |RuleOrder| ==> RuleOrder[i] != RuleOrder[j]
  {
    match rule
    case NormalizeEventName => assert RuleOrder[0] == rule;
    case TrimDescription => assert RuleOrder[1] == rule;
    case InferLocationType => assert RuleOrder[2] == rule;
    case InferAddressType => assert RuleOrder[3] == rule;
    case NormalizeOrganizerName => assert RuleOrder[4] == rule;
    case NormalizeEventStatus => assert RuleOrder[5] == rule;
    case AnnotateMissingEndDate => assert RuleOrder[6] == rule;
    case AnnotateMissingDuration => assert RuleOrder[7] == rule;
  }

  lemma FiredInOrder(rs: seq<Rule>, doc: Members, rule: Rule)
    requires rule in rs && forall i, j :: 0 <= i < j < |rs| ==> rs[i] != rs[j]
    ensures Subsequence(Fired(rs, doc), Names(rs))
    ensures Distinct(Fired(rs, doc))
    ensures RuleName(rule) in Fired(rs, doc) <==> FiresOn(rule, doc)
  {
    FiredSubsequence(rs, doc);
    FiredDistinct(rs, doc);
    FiredMembers(rs, doc, rule);
  }

  // --- The output document ------------------------------------------------------

  /** A document: the output is the final draft with its provenance attached. */
  lemma NormalizeEventIs(doc: Members)
    requires HasKey(doc, "@context")
    ensures NormalizeEvent(Value(JObj(doc)))
         == JObj(Attach(Run(RuleOrder, Draft(doc, [])).out, Fired(RuleOrder, doc)))
  {
    RulesApplied(doc);
  }

  /** The members rules write. */
  predicate EventKey(k: string)
  {
    k == "name" || k == "description" || k == "location" || k == "organizer"
    || k == "eventStatus" || k == "endDate" || k == "duration"
  }

  lemma WritesEventKey(rule: Rule)
    ensures EventKey(Writes(rule))
  {
  }

  /** Outside `provenance`, the output's members are those of the final draft. */
  lemma OutputMember(doc: Members, k: string)
    requires HasKey(doc, "@context") && k != "provenance"
    ensures Get(NormalizeEvent(Value(JObj(doc))).members, k) == Get(Stage(doc, |RuleOrder|).out, k)
  {
    NormalizeEventIs(doc);
    StageEnds(doc);
  }

  /**
   * Each member a rule writes ends with what its rule leaves there: a string
   * `name` title-cased, a string `description` trimmed, a location object
   * and an address object inside it typed without overwriting a `@type`, an
   * organizer object's string `name` title-cased, `eventStatus` normalised,
   * a missing `endDate` set to `null`, and a missing `duration` annotated
   * when the end date is then `null`. A member whose guard fails keeps its
   * input value.
   */
  lemma NameField(doc: Members)
    requires HasKey(doc, "@context")
    ensures Get(NormalizeEvent(Value(JObj(doc))).members, "name")
         == TitledName(Get(doc, "name"))
  {
    FinalName(doc);
    OutputMember(doc, "name");
  }

  lemma DescriptionField(doc: Members)
    requires HasKey(doc, "@context")
    ensures Get(NormalizeEvent(Value(JObj(doc))).members, "description")
         == TrimmedText(Get(doc, "description"))
  {
    FinalDescription(doc);
    OutputMember(doc, "description");
  }

  lemma LocationField(doc: Members)
    requires HasKey(doc, "@context")
    ensures Get(NormalizeEvent(Value(JObj(doc))).members, "location")
         == TypedLocation(Get(doc, "location"))
  {
    FinalLocation(doc);
    OutputMember(doc, "location");
  }

  lemma OrganizerField(doc: Members)
    requires HasKey(doc, "@context")
    ensures Get(NormalizeEvent(Value(JObj(doc))).members, "organizer")
         == TitledOrganizer(Get(doc, "organizer"))
  {
    FinalOrganizer(doc);
    OutputMember(doc, "organizer");
  }

  lemma StatusField(doc: Members)
    requires HasKey(doc, "@context")
    ensures Get(NormalizeEvent(Value(JObj(doc))).members, "eventStatus")
         == NormalizedStatus(Get(doc, "eventStatus"))
  {
    FinalStatus(doc);
    OutputMember(doc, "eventStatus");
  }

  lemma EndDateField(doc: Members)
    requires HasKey(doc, "@context")
    ensures Get(NormalizeEvent(Value(JObj(doc))).members, "endDate")
         == FilledEndDate(Get(doc, "endDate"))
  {
    FinalEndDate(doc);
    OutputMember(doc, "endDate");
  }

  lemma DurationField(doc: Members)
    requires HasKey(doc, "@context")
    ensures Get(NormalizeEvent(Value(JObj(doc))).members, "duration")
         == AnnotatedDuration(Get(doc, "duration"), Get(doc, "endDate"))
  {
    DurationStage(doc);
    OutputMember(doc, "duration");
  }

  /**
   * Every member no rule names keeps its input value, the provenance holds
   * the version and the names of the rules that fired, and the input's
   * members keep their order at the front of the output.
   */
  lemma EventOtherMembers(doc: Members)
    requires HasKey(doc, "@context")
    ensures var r := NormalizeEvent(Value(JObj(doc))).members;
      && (forall k :: !EventKey(k) && k != "provenance" ==> Get(r, k) == Get(doc, k))
      && Get(r, "provenance") == Some(ProvenanceJson(Provenance(KernelVersion, Fired(RuleOrder, doc))))
      && |doc| <= |r| && KeysOf(r)[..|doc|] == KeysOf(doc)
  {
    NormalizeEventIs(doc);
    var fin := Run(RuleOrder, Draft(doc, []));
    forall k | !EventKey(k) && k != "provenance"
      ensures Get(fin.out, k) == Get(doc, k)
    {
      forall m | 0 <= m < |RuleOrder|
        ensures Writes(RuleOrder[m]) != k
      {
        WritesEventKey(RuleOrder[m]);
      }
      StageKeeps(doc, |RuleOrder|, k);
      StageEnds(doc);
    }
    StagePrefix(doc, |RuleOrder|);
    StageEnds(doc);
    var r := Attach(fin.out, Fired(RuleOrder, doc));
    assert KeysOf(r)[..|doc|] == KeysOf(r)[..|fin.out|][..|doc|];
  }

  lemma {:induction false} StagePrefix(doc: Members, i: nat)
    requires i <= |RuleOrder|
    ensures |doc| <= |Stage(doc, i).out| && KeysOf(Stage(doc, i).out)[..|doc|] == KeysOf(doc)
  {
    if i == 0 {
      StageEnds(doc);
    } else {
      StagePrefix(doc, i - 1);
      EffectAssigns(RuleOrder[i - 1], Stage(doc, i - 1).out);
      var a, b := Stage(doc, i - 1).out, Stage(doc, i).out;
      assert KeysOf(b)[..|doc|] == KeysOf(b)[..|a|][..|doc|];
    }
  }

  // --- Validation ---------------------------------------------------------------

  /**
   * The validation shell is the kernel's: the same two error documents
   * under the same conditions, with no rule applied; a document never
   * yields an error document, even when no rule fires.
   */
  lemma NormalizeEventErrors(input: Input)
    ensures !IsDocument(input) ==> NormalizeEvent(input) == Transform(input)
    ensures ErrorOf(NormalizeEvent(input)) == Some(ErrorDoc(InvalidInput, InvalidInputMessage)) <==> !IsRecord(input)
    ensures ErrorOf(NormalizeEvent(input)) == Some(ErrorDoc(InvalidContext, InvalidContextMessage))
            <==> IsRecord(input) && !HasKey(input.v.members, "@context")
    ensures ErrorOf(NormalizeEvent(input)).None? <==> IsDocument(input)
  {
    if IsDocument(input) {
      DocumentIsNoError(input.v.members);
    } else {
      TransformErrors(input);
    }
  }

  /** A document's output is never an error document, even when no rule fires. */
  lemma DocumentIsNoError(doc: Members)
    requires HasKey(doc, "@context")
    ensures ErrorOf(NormalizeEvent(Value(JObj(doc)))).None?
  {
    NormalizeEventIs(doc);
    FinalEndDate(doc);
    StageEnds(doc);
    AttachKeepsNoError(Run(RuleOrder, Draft(doc, [])).out, Fired(RuleOrder, doc), "endDate");
  }

  /** As in the kernel, a success output may carry the tag `"@type": "Error"` of its input. */
  lemma EventSuccessCanCarryErrorTag(doc: Members)
    requires HasKey(doc, "@context") && Get(doc, "@type") == Some(JStr("Error"))
    ensures ErrorOf(NormalizeEvent(Value(JObj(doc)))).None?
    ensures Get(NormalizeEvent(Value(JObj(doc))).members, "@type") == Some(JStr("Error"))
  {
    DocumentIsNoError(doc);
    OutputMember(doc, "@type");
    StageKeepsUntouched(doc, "@type");
  }

  /** A member no rule writes keeps its input value in the final draft. */
  lemma StageKeepsUntouched(doc: Members, k: string)
    requires !EventKey(k)
    ensures Get(Stage(doc, |RuleOrder|).out, k) == Get(doc, k)
  {
    forall m | 0 <= m < |RuleOrder|
      ensures Writes(RuleOrder[m]) != k
    {
      WritesEventKey(RuleOrder[m]);
    }
    StageKeeps(doc, |RuleOrder|, k);
    StageEnds(doc);
  }

  // --- Well-formedness ------------------------------------------------------------

  lemma WithTypeWellFormed(ms: Members, t: string)
    requires WellFormed(JObj(ms))
    ensures WellFormed(JObj(WithType(ms, t)))
  {
    if !HasKey(ms, "@type") {
      SetWellFormed(ms, "@type", JStr(t));
    }
  }

  lemma EffectWellFormed(rule: Rule, out: Members)
    requires WellFormed(JObj(out))
    ensures Effect(rule, out).Some? ==> WellFormed(JObj(Effect(rule, out).value))
  {
    var k := Writes(rule);
    if Effect(rule, out).Some? {
      match rule
      case NormalizeEventName =>
        SetWellFormed(out, k, JStr(TitleCase(StringAt(out, k).value)));
      case TrimDescription =>
        SetWellFormed(out, k, JStr(Trim(StringAt(out, k).value)));
      case InferLocationType =>
        var loc := RecordAt(out, k).value;
        MemberWellFormed(out, k);
        WithTypeWellFormed(loc, "Place");
        SetWellFormed(out, k, JObj(TypeLocation(loc)));
      case InferAddressType =>
        var loc := RecordAt(out, k).value;
        MemberWellFormed(out, k);
        var addr := RecordAt(loc, "address").value;
        MemberWellFormed(loc, "address");
        WithTypeWellFormed(addr, "PostalAddress");
        SetWellFormed(loc, "address", JObj(WithType(addr, "PostalAddress")));
        SetWellFormed(out, k, JObj(TypeAddress(loc)));
      case NormalizeOrganizerName =>
        var org := RecordAt(out, k).value;
        MemberWellFormed(out, k);
        SetWellFormed(org, "name", JStr(TitleCase(StringAt(org, "name").value)));
        SetWellFormed(out, k, JObj(TitleOrganizer(org)));
      case NormalizeEventStatus =>
        MemberWellFormed(out, k);
        SetWellFormed(out, k, NormalizeStatus(Get(out, k).value));
      case AnnotateMissingEndDate =>
        SetWellFormed(out, k, JNull);
      case AnnotateMissingDuration =>
        SetWellFormed(out, k, DurationAnnotation);
    }
  }

  lemma {:induction false} StageWellFormed(doc: Members, i: nat)
    requires i <= |RuleOrder| && WellFormed(JObj(doc))
    ensures WellFormed(JObj(Stage(doc, i).out))
  {
    if i > 0 {
      StageWellFormed(doc, i - 1);
      EffectWellFormed(RuleOrder[i - 1], Stage(doc, i - 1).out);
    }
  }

  /** Every output has unique member names at every depth when the input does. */
  lemma NormalizeEventWellFormed(input: Input)
    requires input.Value? ==> WellFormed(input.v)
    ensures WellFormed(NormalizeEvent(input))
  {
    NormalizeEventErrors(input);
    TransformWellFormed(input);
    if IsDocument(input) {
      var doc := input.v.members;
      NormalizeEventIs(doc);
      StageWellFormed(doc, |RuleOrder|);
      StageEnds(doc);
      var p := ProvenanceJson(Provenance(KernelVersion, Fired(RuleOrder, doc)));
      ProvenanceRoundTrip(Provenance(KernelVersion, Fired(RuleOrder, doc)));
      SetWellFormed(Stage(doc, |RuleOrder|).out, "provenance", p);
    }
  }

  // --- Idempotence ------------------------------------------------------------------

  lemma TitleOrganizerIdempotent(org: Members)
    ensures TitleOrganizer(TitleOrganizer(org)) == TitleOrganizer(org)
  {
    match StringAt(org, "name")
    case Some(n) =>
      var once := TitleOrganizer(org);
      TitleCaseIdempotent(n);
      SetUnchanged(once, "name", JStr(TitleCase(n)));
    case None =>
  }

  lemma TypedLocationIdempotent(loc: Members)
    ensures var once := TypeAddress(TypeLocation(loc));
      TypeAddress(TypeLocation(once)) == once
  {
    var typed := TypeLocation(loc);
    var once := TypeAddress(typed);
    assert HasKey(once, "@type") by {
      assert Get(once, "@type") == Get(typed, "@type");
    }
    assert TypeLocation(once) == once;
  }

  /** Each member's outcome is a fixpoint: the rule finds nothing more to do. */
  lemma OutcomesIdempotent(v: Option<Json>, d: Option<Json>, e: Option<Json>)
    ensures TitledName(TitledName(v)) == TitledName(v)
    ensures TrimmedText(TrimmedText(v)) == TrimmedText(v)
    ensures TypedLocation(TypedLocation(v)) == TypedLocation(v)
    ensures TitledOrganizer(TitledOrganizer(v)) == TitledOrganizer(v)
    ensures NormalizedStatus(NormalizedStatus(v)) == NormalizedStatus(v)
    ensures FilledEndDate(FilledEndDate(v)) == FilledEndDate(v)
    ensures AnnotatedDuration(AnnotatedDuration(d, e), FilledEndDate(e)) == AnnotatedDuration(d, e)
  {
    match v
    case Some(JStr(s)) =>
      TitleCaseIdempotent(s);
      TrimIdempotent(s);
      NormalizeStatusIdempotent(JStr(s));
    case Some(JObj(ms)) =>
      TypedLocationIdempotent(ms);
      TitleOrganizerIdempotent(ms);
      NormalizeStatusIdempotent(JObj(ms));
    case Some(x) =>
      NormalizeStatusIdempotent(x);
    case None =>
  }

  // On a second pass each written member already holds its outcome: `r` holds
  // the first pass's output, whose members are the outcomes for the input
  // values `v` (and `d`, `e` for the duration rule).

  lemma SecondName(r: Members, v: Option<Json>)
    requires HasKey(r, "@context") && Get(r, "name") == TitledName(v)
    ensures Get(NormalizeEvent(Value(JObj(r))).members, "name") == Get(r, "name")
  {
    NameField(r);
    OutcomesIdempotent(v, None, None);
  }

  lemma SecondDescription(r: Members, v: Option<Json>)
    requires HasKey(r, "@context") && Get(r, "description") == TrimmedText(v)
    ensures Get(NormalizeEvent(Value(JObj(r))).members, "description") == Get(r, "description")
  {
    DescriptionField(r);
    OutcomesIdempotent(v, None, None);
  }

  lemma SecondLocation(r: Members, v: Option<Json>)
    requires HasKey(r, "@context") && Get(r, "location") == TypedLocation(v)
    ensures Get(NormalizeEvent(Value(JObj(r))).members, "location") == Get(r, "location")
  {
    LocationField(r);
    OutcomesIdempotent(v, None, None);
  }

  lemma SecondOrganizer(r: Members, v: Option<Json>)
    requires HasKey(r, "@context") && Get(r, "organizer") == TitledOrganizer(v)
    ensures Get(NormalizeEvent(Value(JObj(r))).members, "organizer") == Get(r, "organizer")
  {
    OrganizerField(r);
    OutcomesIdempotent(v, None, None);
  }

  lemma SecondStatus(r: Members, v: Option<Json>)
    requires HasKey(r, "@context") && Get(r, "eventStatus") == NormalizedStatus(v)
    ensures Get(NormalizeEvent(Value(JObj(r))).members, "eventStatus") == Get(r, "eventStatus")
  {
    StatusField(r);
    OutcomesIdempotent(v, None, None);
  }

  lemma SecondEndDate(r: Members, v: Option<Json>)
    requires HasKey(r, "@context") && Get(r, "endDate") == FilledEndDate(v)
    ensures Get(NormalizeEvent(Value(JObj(r))).members, "endDate") == Get(r, "endDate")
  {
    EndDateField(r);
    OutcomesIdempotent(v, None, None);
  }

  lemma SecondDuration(r: Members, d: Option<Json>, e: Option<Json>)
    requires HasKey(r, "@context")
    requires Get(r, "duration") == AnnotatedDuration(d, e) && Get(r, "endDate") == FilledEndDate(e)
    ensures Get(NormalizeEvent(Value(JObj(r))).members, "duration") == Get(r, "duration")
  {
    DurationField(r);
    OutcomesIdempotent(None, d, e);
  }

  /**
   * Normalising an already normalised event changes no member except
   * `provenance`: every rule that fires again writes the value already
   * there. (`rulesApplied` of the second pass still names the rules whose
   * guards hold, such as the name rule for any string name.)
   */
  lemma NormalizeEventIdempotent(doc: Members)
    requires HasKey(doc, "@context")
    ensures NormalizeEvent(Value(JObj(doc))).JObj?
    ensures var r := NormalizeEvent(Value(JObj(doc))).members;
      && HasKey(r, "@context")
      && forall k :: k != "provenance" ==> Get(NormalizeEvent(Value(JObj(r))).members, k) == Get(r, k)
  {
    var r := NormalizeEvent(Value(JObj(doc))).members;
    EventOtherMembers(doc);
    assert Get(r, "@context") == Get(doc, "@context");
    EventOtherMembers(r);
    FirstPass(doc);
    SecondPass(doc, r);
  }

  /** The members of `r` are the outcomes of the rules on the members of `doc`. */
  ghost predicate Outcomes(doc: Members, r: Members)
  {
    && Get(r, "name") == TitledName(Get(doc, "name"))
    && Get(r, "description") == TrimmedText(Get(doc, "description"))
    && Get(r, "location") == TypedLocation(Get(doc, "location"))
    && Get(r, "organizer") == TitledOrganizer(Get(doc, "organizer"))
    && Get(r, "eventStatus") == NormalizedStatus(Get(doc, "eventStatus"))
    && Get(r, "endDate") == FilledEndDate(Get(doc, "endDate"))
    && Get(r, "duration") == AnnotatedDuration(Get(doc, "duration"), Get(doc, "endDate"))
  }

  lemma FirstPass(doc: Members)
    requires HasKey(doc, "@context")
    ensures Outcomes(doc, NormalizeEvent(Value(JObj(doc))).members)
  {
    NameField(doc);
    DescriptionField(doc);
    LocationField(doc);
    OrganizerField(doc);
    StatusField(doc);
    EndDateField(doc);
    DurationField(doc);
  }

  lemma SecondPass(doc: Members, r: Members)
    requires HasKey(r, "@context") && Outcomes(doc, r)
    ensures forall k :: EventKey(k) ==> Get(NormalizeEvent(Value(JObj(r))).members, k) == Get(r, k)
  {
    SecondName(r, Get(doc, "name"));
    SecondDescription(r, Get(doc, "description"));
    SecondLocation(r, Get(doc, "location"));
    SecondOrganizer(r, Get(doc, "organizer"));
    SecondStatus(r, Get(doc, "eventStatus"));
    SecondEndDate(r, Get(doc, "endDate"));
    SecondDuration(r, Get(doc, "duration"), Get(doc, "endDate"));
  }

  // --- Recording on guard -----------------------------------------------------------

  /**
   * A rule is recorded whenever its guard holds, whether or not its write
   * changes anything: a name that is already title-cased is recorded as
   * normalised and comes out as it went in.
   */
  lemma RecordedWithoutChange(doc: Members, s: string)
    requires HasKey(doc, "@context") && Get(doc, "name") == Some(JStr(s)) && TitleCase(s) == s
    ensures RuleName(NormalizeEventName) in Fired(RuleOrder, doc)
    ensures Get(NormalizeEvent(Value(JObj(doc))).members, "name") == Get(doc, "name")
  {
    NameField(doc);
    RulesAppliedInOrder(doc, NormalizeEventName);
    RulesApplied(doc);
  }

  // --- Rule 6 as written, in the pipeline ------------------------------------------

  /** The status rule 6 meets is the input's: no earlier block writes it. */
  lemma StatusReachesRule(doc: Members)
    ensures Get(Stage(doc, 5).out, "eventStatus") == Get(doc, "eventStatus")
  {
    StageKeeps(doc, 5, "eventStatus");
  }

  /** Whether the corrected pipeline records rule 6, and what `eventStatus` it leaves. */
  lemma StatusOutcomeCorrected(doc: Members)
    requires HasKey(doc, "@context")
    ensures RuleName(NormalizeEventStatus) in Fired(RuleOrder, doc) <==> FiresOn(NormalizeEventStatus, doc)
    ensures Get(NormalizeEvent(Value(JObj(doc))).members, "eventStatus") == NormalizedStatus(Get(doc, "eventStatus"))
  {
    StatusField(doc);
    RulesAppliedInOrder(doc, NormalizeEventStatus);
    RulesApplied(doc);
  }

  /** Rule 6 fires exactly when the table changes the input's status. */
  lemma StatusFires(doc: Members, v: Json)
    requires Get(doc, "eventStatus") == Some(v)
    ensures FiresOn(NormalizeEventStatus, doc) == (NormalizeStatus(v) != v)
  {
  }

  lemma MovedOnlineRuleAsWritten(out: Members)
    requires Get(out, "eventStatus") == Some(JStr("movedOnline"))
    ensures StatusRuleAsWritten(out) == StatusOutcome(false, Some(JsonValue(JStr("movedOnline"))))
  {
    assert Lower("movedOnline") == "movedonline";
  }

  lemma ConstructorRuleAsWritten(out: Members)
    requires Get(out, "eventStatus") == Some(JStr("Constructor"))
    ensures StatusRuleAsWritten(out) == StatusOutcome(true, Some(PrototypeMember("constructor")))
  {
    ConstructorStatusAsWritten(JStr("Constructor"));
  }

  /**
   * As written, an `eventStatus` of `"movedOnline"` reaches rule 6 unchanged
   * and the rule neither records its name nor changes the value; the
   * corrected pipeline writes the moved-online URI and records the rule.
   */
  lemma MovedOnlineNotRecordedAsWritten(doc: Members)
    requires HasKey(doc, "@context") && Get(doc, "eventStatus") == Some(JStr("movedOnline"))
    ensures StatusRuleAsWritten(Stage(doc, 5).out) == StatusOutcome(false, Some(JsonValue(JStr("movedOnline"))))
    ensures RuleName(NormalizeEventStatus) in Fired(RuleOrder, doc)
    ensures Get(NormalizeEvent(Value(JObj(doc))).members, "eventStatus") == Some(JStr(MovedOnlineUri))
  {
    StatusReachesRule(doc);
    MovedOnlineRuleAsWritten(Stage(doc, 5).out);
    MovedOnlineNormalized(JStr("movedOnline"));
    assert MovedOnlineUri != "movedOnline" by { assert |MovedOnlineUri| != |"movedOnline"|; }
    StatusFires(doc, JStr("movedOnline"));
    StatusOutcomeCorrected(doc);
  }

  /**
   * As written, an `eventStatus` of `"Constructor"` makes rule 6 record its
   * name and write the inherited `constructor` member; the corrected
   * pipeline leaves the value and records nothing.
   */
  lemma ConstructorRecordedAsWritten(doc: Members)
    requires HasKey(doc, "@context") && Get(doc, "eventStatus") == Some(JStr("Constructor"))
    ensures StatusRuleAsWritten(Stage(doc, 5).out) == StatusOutcome(true, Some(PrototypeMember("constructor")))
    ensures RuleName(NormalizeEventStatus) !in Fired(RuleOrder, doc)
    ensures Get(NormalizeEvent(Value(JObj(doc))).members, "eventStatus") == Get(doc, "eventStatus")
  {
    StatusReachesRule(doc);
    ConstructorRuleAsWritten(Stage(doc, 5).out);
    assert Lower("Constructor") == "constructor";
    PrototypeStatusUnchanged(JStr("Constructor"));
    StatusFires(doc, JStr("Constructor"));
    StatusOutcomeCorrected(doc);
  }

  /** Such a name exists: the title-cased form of any title-cased text is itself. */
  lemma AlreadyTitled(s: string)
    requires s == "Quarterly Planning Meeting"
    ensures TitleCase(s) == s
  {
    TitleCaseExample("quarterly PLANNING meeting");
    TitleCaseIdempotent("quarterly PLANNING meeting");
  }
}
