/**
 * `transformEvent` in the source's imperative shape: the cloned document
 * and the `rules` array are updated block by block. Each block is proved to
 * do exactly what the pure `Step` of EventRules does, so the properties
 * proved in EventLaws about `NormalizeEvent` hold of what `TransformEvent`
 * returns. The status block uses the corrected status table, so it differs
 * from the source on statuses that lower-case to `movedonline`,
 * `constructor` or `__proto__`; EventRules.StatusRuleAsWritten is the block
 * as written.
 */
module EventPipeline {
  import opened Json
  import opened Text
  import opened Kernel
  import opened EventStatus
  import opened EventRules
  import opened EventLaws

  /** The mutable clone `out` and the `rules` array that grows with `push`. */
  class EventDraft {
    var out: Members
    var rules: seq<string>

    /** `structuredClone(doc)`, with no rule recorded yet. */
    constructor (doc: Members)
      ensures out == doc && rules == []
    {
      out := doc;
      rules := [];
    }

    function Snapshot(): Draft
      reads this
    {
      Draft(out, rules)
    }

    /** Rule 1: a string `name` is title-cased. */
    method NameBlock()
      modifies this
      ensures Snapshot() == Step(NormalizeEventName, old(Snapshot()))
    {
      match StringAt(out, "name") {
        case Some(s) =>
          out := Set(out, "name", JStr(TitleCase(s)));
          rules := rules + ["normalize-event-name"];
        case None =>
      }
    }

    /** Rule 2: a string `description` is trimmed. */
    method DescriptionBlock()
      modifies this
      ensures Snapshot() == Step(TrimDescription, old(Snapshot()))
    {
      match StringAt(out, "description") {
        case Some(s) =>
          out := Set(out, "description", JStr(Trim(s)));
          rules := rules + ["trim-description"];
        case None =>
      }
    }

    /**
     * Rules 3 and 4: a location object is typed `"Place"` unless typed, and
     * then an address object inside it `"PostalAddress"` unless typed. The
     * source writes through the alias `loc`, which is the member itself; here
     * the member is reassigned after each write.
     */
    method LocationBlock()
      modifies this
      ensures Snapshot() == Step(InferAddressType, Step(InferLocationType, old(Snapshot())))
    {
      match RecordAt(out, "location") {
        case Some(loc0) =>
          var loc := loc0;
          if !HasKey(loc, "@type") {
            loc := Set(loc, "@type", JStr("Place"));
            out := Set(out, "location", JObj(loc));
            rules := rules + ["infer-location-type"];
          }
          AddressBlock(loc);
        case None =>
      }
    }

    /** Rule 4, inside the location object `loc`. */
    method AddressBlock(loc: Members)
      requires RecordAt(out, "location") == Some(loc)
      modifies this
      ensures Snapshot() == Step(InferAddressType, old(Snapshot()))
    {
      match RecordAt(loc, "address") {
        case Some(addr) =>
          if !HasKey(addr, "@type") {
            var typed := Set(loc, "address", JObj(Set(addr, "@type", JStr("PostalAddress"))));
            out := Set(out, "location", JObj(typed));
            rules := rules + ["infer-address-type"];
          }
        case None =>
      }
    }

    /** Rule 5: an organizer object's string `name` is title-cased. */
    method OrganizerBlock()
      modifies this
      ensures Snapshot() == Step(NormalizeOrganizerName, old(Snapshot()))
    {
      match RecordAt(out, "organizer") {
        case Some(org) =>
          match StringAt(org, "name") {
            case Some(n) =>
              out := Set(out, "organizer", JObj(Set(org, "name", JStr(TitleCase(n)))));
              rules := rules + ["normalize-organizer-name"];
            case None =>
          }
        case None =>
      }
    }

    /** Rule 6: a present `eventStatus` is replaced when normalisation changes it. */
    method StatusBlock()
      modifies this
      ensures Snapshot() == Step(NormalizeEventStatus, old(Snapshot()))
    {
      if HasKey(out, "eventStatus") {
        var current := Get(out, "eventStatus").value;
        var normalized := NormalizeStatus(current);
        if normalized != current {
          out := Set(out, "eventStatus", normalized);
          rules := rules + ["normalize-event-status"];
        }
      }
    }

    /** Rule 7: a missing `endDate` becomes `null`. */
    method EndDateBlock()
      modifies this
      ensures Snapshot() == Step(AnnotateMissingEndDate, old(Snapshot()))
    {
      if !HasKey(out, "endDate") {
        out := Set(out, "endDate", JNull);
        rules := rules + ["annotate-missing-end-date"];
      }
    }

    /** Rule 8: a missing `duration` is annotated as unknown when `endDate` is `null`. */
    method DurationBlock()
      modifies this
      ensures Snapshot() == Step(AnnotateMissingDuration, old(Snapshot()))
    {
      if !HasKey(out, "duration") {
        if Get(out, "endDate") == Some(JNull) {
          // the unknown-status annotation that refers to `endDate`
          out := Set(out, "duration", DurationAnnotation);
          rules := rules + ["annotate-missing-duration"];
        }
      }
    }
  }

  /**
   * `transformEvent(input)`: validation, a fresh clone, the rule blocks in
   * source order, and the provenance spread onto the result. The result is
   * the pure `NormalizeEvent(input)`, and so an error document exactly when
   * the input is not a document.
   */
  method TransformEvent(input: Input) returns (r: Json)
    ensures r == NormalizeEvent(input)
    ensures ErrorOf(r).None? <==> IsDocument(input)
  {
    NormalizeEventErrors(input);
    if !IsRecord(input) {
      return MakeError(InvalidInput, InvalidInputMessage);
    }
    var doc := input.v.members;
    if !HasKey(doc, "@context") {
      return MakeError(InvalidContext, InvalidContextMessage);
    }
    var d := new EventDraft(doc);
    assert d.Snapshot() == Stage(doc, 0);
    d.NameBlock();
    assert d.Snapshot() == Stage(doc, 1);
    d.DescriptionBlock();
    assert d.Snapshot() == Stage(doc, 2);
    d.LocationBlock();
    assert d.Snapshot() == Stage(doc, 4);
    d.OrganizerBlock();
    assert d.Snapshot() == Stage(doc, 5);
    d.StatusBlock();
    assert d.Snapshot() == Stage(doc, 6);
    d.EndDateBlock();
    assert d.Snapshot() == Stage(doc, 7);
    d.DurationBlock();
    assert d.Snapshot() == Stage(doc, 8);
    StageEnds(doc);
    r := JObj(Attach(d.out, d.rules));
  }
}
