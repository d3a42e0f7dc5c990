/**
 * `STATUS_MAP` and `normalizeStatus` of the event-normalisation example
 * (examples/event-normalization/transform.ts): a status string is looked up,
 * lower-cased, in a table of Schema.org EventStatusType URIs.
 *
 * Two readings are modelled. `StatusLookupAsWritten` is the property read
 * `STATUS_MAP[key]` on the object literal: it finds the five own entries,
 * one of them under the mixed-case name `movedOnline`, and also the members
 * every object inherits from `Object.prototype`. `NormalizeStatus` is the
 * evidently intended table: own entries only, every name lower-case.
 */
module EventStatus {
  import opened Json
  import opened Text

  const ScheduledUri: string := "https://schema.org/EventScheduled"
  const CancelledUri: string := "https://schema.org/EventCancelled"
  const PostponedUri: string := "https://schema.org/EventPostponed"
  const RescheduledUri: string := "https://schema.org/EventRescheduled"
  const MovedOnlineUri: string := "https://schema.org/EventMovedOnline"

  /** The object literal's own entries, as written. */
  const StatusMapAsWritten: seq<(string, string)> := [
    ("scheduled", ScheduledUri),
    ("cancelled", CancelledUri),
    ("postponed", PostponedUri),
    ("rescheduled", RescheduledUri),
    ("movedOnline", MovedOnlineUri)]

  /** The table with the fifth name written the way it is looked up. */
  const StatusMap: seq<(string, string)> := [
    ("scheduled", ScheduledUri),
    ("cancelled", CancelledUri),
    ("postponed", PostponedUri),
    ("rescheduled", RescheduledUri),
    ("movedonline", MovedOnlineUri)]

  /** The members of `Object.prototype`, which every object literal inherits. */
  const ObjectPrototypeNames: seq<string> := [
    "constructor", "hasOwnProperty", "isPrototypeOf", "propertyIsEnumerable",
    "toLocaleString", "toString", "valueOf", "__defineGetter__",
    "__defineSetter__", "__lookupGetter__", "__lookupSetter__", "__proto__"]

  /** The value of the first entry named `key`. */
  function TableLookup(t: seq<(string, string)>, key: string): (r: Option<string>)
    ensures r.Some? ==> (key, r.value) in t
    ensures r.None? <==> forall i :: 0 <= i < |t| ==> t[i].0 != key
  {
    if t == [] then None
    else if t[0].0 == key then Some(t[0].1)
    else TableLookup(t[1..], key)
  }

  /** The lookup finds the first entry with the key. */
  lemma {:induction false} LookupAt(t: seq<(string, string)>, i: nat, key: string)
    requires i < |t| && t[i].0 == key
    requires forall j :: 0 <= j < i ==> t[j].0 != key
    ensures TableLookup(t, key) == Some(t[i].1)
  {
    if i > 0 {
      LookupAt(t[1..], i - 1, key);
    }
  }

  /** Two tables with the same values and the same entries named `key` agree on `key`. */
  lemma {:induction false} LookupAgrees(t: seq<(string, string)>, u: seq<(string, string)>, key: string)
    requires |t| == |u|
    requires forall i :: 0 <= i < |t| ==> t[i].1 == u[i].1 && (t[i].0 == key <==> u[i].0 == key)
    ensures TableLookup(t, key) == TableLookup(u, key)
  {
    if t != [] {
      LookupAgrees(t[1..], u[1..], key);
    }
  }

  // --- As written ---------------------------------------------------------------

  /** What the property read `STATUS_MAP[key]` finds. */
  datatype Lookup = Absent | Own(uri: string) | Inherited(name: string)

  function StatusLookupAsWritten(key: string): Lookup
  {
    match TableLookup(StatusMapAsWritten, key)
    case Some(uri) => Own(uri)
    case None => if key in ObjectPrototypeNames then Inherited(key) else Absent
  }

  /** The result of `normalizeStatus`: a JSON value, or a member of `Object.prototype`. */
  datatype StatusValue = JsonValue(j: Json) | PrototypeMember(name: string)

  /** `normalizeStatus(raw)` as written: `STATUS_MAP[raw.toLowerCase()] ?? raw` for strings. */
  function NormalizeStatusAsWritten(raw: Json): StatusValue
  {
    if !raw.JStr? then JsonValue(raw)
    else
      match StatusLookupAsWritten(Lower(raw.s))
      case Own(uri) => JsonValue(JStr(uri))
      case Inherited(name) => PrototypeMember(name)
      case Absent => JsonValue(raw)
  }

  lemma LoweredDiffers(x: string, y: string, i: nat)
    requires Lowered(x) && i < |y| && AsciiLower(y[i]) != y[i]
    ensures x != y
  {
  }

  /** Of the inherited names only these two survive lower-casing. */
  lemma LoweredPrototypeNames(key: string)
    requires Lowered(key) && key in ObjectPrototypeNames
    ensures key == "constructor" || key == "__proto__"
  {
    LoweredDiffers(key, "hasOwnProperty", 3);
    LoweredDiffers(key, "isPrototypeOf", 2);
    LoweredDiffers(key, "propertyIsEnumerable", 8);
    LoweredDiffers(key, "toLocaleString", 2);
    LoweredDiffers(key, "toString", 2);
    LoweredDiffers(key, "valueOf", 5);
    LoweredDiffers(key, "__defineGetter__", 8);
    LoweredDiffers(key, "__defineSetter__", 8);
    LoweredDiffers(key, "__lookupGetter__", 8);
    LoweredDiffers(key, "__lookupSetter__", 8);
  }

  /**
   * As written, the `movedOnline` entry is dead: a lower-cased key never
   * equals it, so the only string normalised to its URI is that URI itself,
   * passed through unchanged.
   */
  lemma MovedOnlineUnreachableAsWritten(raw: Json)
    ensures NormalizeStatusAsWritten(raw) == JsonValue(JStr(MovedOnlineUri)) ==> raw == JStr(MovedOnlineUri)
  {
    if raw.JStr? {
      var key := Lower(raw.s);
      LowerLowered(raw.s);
      LoweredDiffers(key, "movedOnline", 5);
      var t := StatusMapAsWritten;
      assert t[0].1 != MovedOnlineUri && t[1].1 != MovedOnlineUri && t[2].1 != MovedOnlineUri;
      assert t[3].1 != MovedOnlineUri;
    }
  }

  /**
   * As written, a status whose lower-cased form is an inherited member name
   * is looked up successfully: `"constructor"` and `"__proto__"`, in any
   * case, yield a function or an object instead of a URI, and exactly those.
   */
  lemma PrototypeStatusAsWritten(raw: Json)
    ensures NormalizeStatusAsWritten(raw).PrototypeMember?
            <==> raw.JStr? && (Lower(raw.s) == "constructor" || Lower(raw.s) == "__proto__")
  {
    if raw.JStr? {
      var key := Lower(raw.s);
      LowerLowered(raw.s);
      if key in ObjectPrototypeNames {
        LoweredPrototypeNames(key);
      }
      if key == "constructor" || key == "__proto__" {
        assert key in ObjectPrototypeNames;
        assert TableLookup(StatusMapAsWritten, key).None?;
      }
    }
  }

  lemma ConstructorStatusAsWritten(raw: Json)
    requires raw == JStr("Constructor")
    ensures NormalizeStatusAsWritten(raw) == PrototypeMember("constructor")
  {
    assert Lower("Constructor") == "constructor";
    PrototypeStatusAsWritten(raw);
  }

  // --- Corrected ------------------------------------------------------------------

  lemma StatusMapLengths()
    ensures forall i :: 0 <= i < |StatusMap| ==> |StatusMap[i].0| <= 11 && |StatusMap[i].1| >= 30
  {
  }

  /** No status name is longer than 11 characters. */
  lemma LongKeyAbsent(key: string)
    requires |key| > 11
    ensures TableLookup(StatusMap, key).None?
  {
    StatusMapLengths();
  }

  /**
   * `normalizeStatus` with the intended table: a string whose lower-cased
   * form is a name in the table becomes that name's URI; anything else is
   * returned as it came.
   */
  function NormalizeStatus(raw: Json): (r: Json)
    ensures r != raw <==> raw.JStr? && TableLookup(StatusMap, Lower(raw.s)).Some?
    ensures r != raw ==> r == JStr(TableLookup(StatusMap, Lower(raw.s)).value)
  {
    if raw.JStr? then
      match TableLookup(StatusMap, Lower(raw.s))
      case Some(uri) =>
        StatusMapLengths();
        assert |uri| >= 30 && |Lower(raw.s)| <= 11;
        JStr(uri)
      case None => raw
    else raw
  }

  /** A URI the table produces is not itself a status name, so normalising twice changes nothing more. */
  lemma NormalizeStatusIdempotent(raw: Json)
    ensures NormalizeStatus(NormalizeStatus(raw)) == NormalizeStatus(raw)
  {
    var r := NormalizeStatus(raw);
    if r != raw {
      StatusMapLengths();
      var uri := r.s;
      assert |Lower(uri)| >= 30;
      LongKeyAbsent(Lower(uri));
    }
  }

  /** With the intended table the fifth status is reachable. */
  lemma MovedOnlineNormalized(raw: Json)
    requires raw == JStr("movedOnline")
    ensures NormalizeStatus(raw) == JStr(MovedOnlineUri)
  {
    assert Lower("movedOnline") == "movedonline";
    LookupAt(StatusMap, 4, "movedonline");
  }

  /**
   * With only the table's own names looked up, a status that names an
   * inherited member, in any case, is left as it came.
   */
  lemma PrototypeStatusUnchanged(raw: Json)
    requires raw.JStr? && Lower(raw.s) in ObjectPrototypeNames
    ensures NormalizeStatus(raw) == raw
  {
    var key := Lower(raw.s);
    LowerLowered(raw.s);
    LoweredPrototypeNames(key);
    assert TableLookup(StatusMap, key).None?;
  }

  /**
   * Away from the three names the findings concern, the code as written
   * and the corrected table agree on every value.
   */
  lemma NormalizeStatusAgrees(raw: Json)
    requires raw.JStr? ==> Lower(raw.s) != "movedonline" && Lower(raw.s) != "constructor" && Lower(raw.s) != "__proto__"
    ensures NormalizeStatusAsWritten(raw) == JsonValue(NormalizeStatus(raw))
  {
    if raw.JStr? {
      var key := Lower(raw.s);
      LowerLowered(raw.s);
      LoweredDiffers(key, "movedOnline", 5);
      if key in ObjectPrototypeNames {
        LoweredPrototypeNames(key);
      }
      LookupAgrees(StatusMapAsWritten, StatusMap, key);
    }
  }
}
