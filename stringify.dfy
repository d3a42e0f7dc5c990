/**
 * `stableStringify` (src/kernel/canonicalize.ts): `JSON.stringify` applied
 * to the canonical form, compact or with a two-space indent. The serialiser
 * follows the JSON.stringify algorithm of ECMA-262 (SerializeJSONProperty,
 * SerializeJSONObject, SerializeJSONArray, QuoteJSONString) over the values
 * of the Json type.
 */
module Stringify {
  import opened Json
  import opened CodeUnitOrder
  import opened Canonicalize
  import opened Text

  function DigitChar(d: nat): char
    requires d < 10
  {
    "0123456789"[d]
  }

  function Digits(n: nat): string
  {
    if n < 10 then [DigitChar(n)] else Digits(n / 10) + [DigitChar(n % 10)]
  }

  /** The decimal text `JSON.stringify` gives an integer of magnitude below 10^21. */
  function NumberText(n: int): string
  {
    if n < 0 then "-" + Digits(-n) else Digits(n)
  }

  function HexDigit(d: nat): char
    requires d < 16
  {
    "0123456789abcdef"[d]
  }

  /** One character of QuoteJSONString. */
  function EscapeChar(c: char): string
  {
    if c as int == 0x08 then "\\b"
    else if c == '\t' then "\\t"
    else if c == '\n' then "\\n"
    else if c as int == 0x0C then "\\f"
    else if c == '\r' then "\\r"
    else if c == '"' then "\\\""
    else if c == '\\' then "\\\\"
    else if (c as int) < 0x20 then
      var n := c as int;
      "\\u00" + [HexDigit(n / 16), HexDigit(n % 16)]
    else [c]
  }

  function Escaped(s: string): string
  {
    if s == [] then [] else EscapeChar(s[0]) + Escaped(s[1..])
  }

  function Quote(s: string): string
  {
    "\"" + Escaped(s) + "\""
  }

  /**
   * The brackets around the serialised elements or members of a container:
   * nothing between them when it is empty, a comma-separated line when `gap`
   * is empty, otherwise one element per line indented by one more `gap`.
   */
  function Bracket(open: string, close: string, parts: seq<string>, gap: string, indent: string): string
  {
    if parts == [] then open + close
    else if gap == "" then open + Join(parts, ",") + close
    else open + "\n" + indent + gap + Join(parts, ",\n" + indent + gap) + "\n" + indent + close
  }

  /**
   * `JSON.stringify(v, null, gap)` at the current `indent`: an empty `gap`
   * gives the compact form, `"  "` the pretty form.
   */
  function Serialize(v: Json, gap: string, indent: string): string
  {
    match v
    case JNull => "null"
    case JBool(b) => if b then "true" else "false"
    case JNum(n) => NumberText(n)
    case JStr(s) => Quote(s)
    case JArr(items) =>
      var parts := seq(|items|, i requires 0 <= i < |items| => Serialize(items[i], gap, indent + gap));
      Bracket("[", "]", parts, gap, indent)
    case JObj(ms) =>
      var colon := if gap == "" then ":" else ": ";
      var parts := seq(|ms|, i requires 0 <= i < |ms| => Quote(ms[i].0) + colon + Serialize(ms[i].1, gap, indent + gap));
      Bracket("{", "}", parts, gap, indent)
  }

  /** `stableStringify(value, pretty)`. */
  function StableStringify(v: Json, pretty: bool): string
  {
    Serialize(Canonical(v), if pretty then "  " else "", "")
  }

  /**
   * The string depends on the value only through its canonical form:
   * stringifying the canonical form gives the same text.
   */
  lemma StableStringifyOfCanonical(v: Json, pretty: bool)
    requires WellFormed(v)
    ensures StableStringify(Canonical(v), pretty) == StableStringify(v, pretty)
  {
    CanonicalIdempotent(v);
  }

  /**
   * Values differing only in the insertion order of object members, at any
   * depth, give byte-identical text, compact or pretty.
   */
  lemma StableStringifyRespectsKeyOrder(a: Json, b: Json, pretty: bool)
    requires WellFormed(a) && WellFormed(b) && SameUpToOrder(a, b)
    ensures StableStringify(a, pretty) == StableStringify(b, pretty)
  {
    CanonicalRespectsKeyOrder(a, b);
  }

  lemma {:induction false} EscapedOneLine(s: string)
    ensures '\n' !in Escaped(s)
  {
    if s != [] {
      EscapedOneLine(s[1..]);
      var c := s[0];
      if (c as int) < 0x20 && !(c as int in {0x08, 0x09, 0x0A, 0x0C, 0x0D}) {
        var n := c as int;
        assert EscapeChar(c) == "\\u00" + [HexDigit(n / 16), HexDigit(n % 16)];
      }
    }
  }

  lemma {:induction false} JoinOneLine(parts: seq<string>, sep: string)
    requires '\n' !in sep
    requires forall i :: 0 <= i < |parts| ==> '\n' !in parts[i]
    ensures '\n' !in Join(parts, sep)
  {
    if |parts| > 1 {
      JoinOneLine(parts[1..], sep);
    }
  }

  lemma DigitsOneLine(n: nat)
    ensures '\n' !in Digits(n)
  {
  }

  /** The compact form never contains a raw line break. */
  lemma {:induction false} CompactIsOneLine(v: Json)
    ensures '\n' !in Serialize(v, "", "")
  {
    match v
    case JNum(n) =>
      DigitsOneLine(if n < 0 then -n else n);
    case JStr(s) =>
      EscapedOneLine(s);
    case JArr(items) =>
      var parts := seq(|items|, i requires 0 <= i < |items| => Serialize(items[i], "", "" + ""));
      forall i | 0 <= i < |items|
        ensures '\n' !in parts[i]
      {
        CompactIsOneLine(items[i]);
        assert "" + "" == "";
      }
      JoinOneLine(parts, ",");
    case JObj(ms) =>
      var colon := if "" == "" then ":" else ": ";
      var parts := seq(|ms|, i requires 0 <= i < |ms| => Quote(ms[i].0) + colon + Serialize(ms[i].1, "", "" + ""));
      forall i | 0 <= i < |ms|
        ensures '\n' !in parts[i]
      {
        EscapedOneLine(ms[i].0);
        CompactIsOneLine(ms[i].1);
        assert "" + "" == "";
      }
      JoinOneLine(parts, ",");
    case _ =>
  }

  lemma SortTwoKeys()
    ensures SortKeys(["b", "a"]) == ["a", "b"]
  {
    assert Below("a", "b");
    assert SortKeys(["a"]) == Insert("a", SortKeys([])) == ["a"];
    assert ["b", "a"][1..] == ["a"];
    assert Insert("b", ["a"]) == ["a"] + Insert("b", []);
  }

  lemma CanonicalOfNumbers(items: seq<Json>)
    requires forall i :: 0 <= i < |items| ==> items[i].JNum?
    ensures Canonical(JArr(items)) == JArr(items)
  {
    var cs := seq(|items|, i requires 0 <= i < |items| => Canonical(items[i]));
    assert cs == items;
  }

  /** A two-member object whose keys sort into the reverse order is swapped. */
  lemma CanonicalSwapsTwo(ms: Members)
    requires |ms| == 2 && ms[0].0 != ms[1].0
    requires SortKeys(KeysOf(ms)) == [ms[1].0, ms[0].0]
    ensures Canonical(JObj(ms)) == JObj([(ms[1].0, Canonical(ms[1].1)), (ms[0].0, Canonical(ms[0].1))])
  {
    var keys := SortKeys(KeysOf(ms));
    IndexOfUnique(ms, 0);
    IndexOfUnique(ms, 1);
    var r := seq(|keys|, i requires 0 <= i < |keys| => (keys[i], Canonical(ms[IndexOf(ms, keys[i])].1)));
    assert r[0] == (ms[1].0, Canonical(ms[1].1));
    assert r[1] == (ms[0].0, Canonical(ms[0].1));
  }

  /** The members are put in code-unit order; a canonical member value is kept. */
  lemma CanonicalExample(arr: Json)
    requires Canonical(arr) == arr
    ensures Canonical(JObj([("b", JNum(1)), ("a", arr)])) == JObj([("a", arr), ("b", JNum(1))])
  {
    var ms := [("b", JNum(1)), ("a", arr)];
    assert KeysOf(ms) == ["b", "a"];
    SortTwoKeys();
    CanonicalSwapsTwo(ms);
  }

  lemma CompactThreeItems(x: Json, y: Json, z: Json)
    ensures Serialize(JArr([x, y, z]), "", "")
         == "[" + Join([Serialize(x, "", ""), Serialize(y, "", ""), Serialize(z, "", "")], ",") + "]"
  {
    var items := [x, y, z];
    var inner := "" + "";
    var ps := seq(|items|, i requires 0 <= i < |items| => Serialize(items[i], "", inner));
    assert inner == "";
    assert ps == [Serialize(x, "", ""), Serialize(y, "", ""), Serialize(z, "", "")];
  }

  lemma CompactTwoMembers(ms: Members)
    requires |ms| == 2
    ensures Serialize(JObj(ms), "", "")
         == "{" + Join([Quote(ms[0].0) + ":" + Serialize(ms[0].1, "", ""),
                        Quote(ms[1].0) + ":" + Serialize(ms[1].1, "", "")], ",") + "}"
  {
    var inner, colon := "" + "", if "" == "" then ":" else ": ";
    var qs := seq(|ms|, i requires 0 <= i < |ms| => Quote(ms[i].0) + colon + Serialize(ms[i].1, "", inner));
    assert inner == "";
    assert qs == [Quote(ms[0].0) + ":" + Serialize(ms[0].1, "", ""), Quote(ms[1].0) + ":" + Serialize(ms[1].1, "", "")];
  }

  lemma SerializeArrayExample()
    ensures Serialize(JArr([JNum(3), JNum(1), JNum(2)]), "", "") == "[3,1,2]"
  {
    CompactThreeItems(JNum(3), JNum(1), JNum(2));
    JoinThree("3", "1", "2", ",");
  }

  lemma SerializeObjectExample(arr: Json)
    requires Serialize(arr, "", "") == "[3,1,2]"
    ensures Serialize(JObj([("a", arr), ("b", JNum(1))]), "", "") == "{\"a\":[3,1,2],\"b\":1}"
  {
    assert Quote("a") == "\"a\"" && Quote("b") == "\"b\"";
    CompactTwoMembers([("a", arr), ("b", JNum(1))]);
    var q0, q1 := "\"a\":[3,1,2]", "\"b\":1";
    assert [q0, q1][1..] == [q1];
    assert Join([q0, q1], ",") == q0 + "," + q1;
  }

  /** Byte-identical text for an object built in either key order. */
  lemma StableStringifyExample()
    ensures StableStringify(JObj([("b", JNum(1)), ("a", JArr([JNum(3), JNum(1), JNum(2)]))]), false)
         == "{\"a\":[3,1,2],\"b\":1}"
  {
    var arr := JArr([JNum(3), JNum(1), JNum(2)]);
    CanonicalOfNumbers(arr.items);
    CanonicalExample(arr);
    SerializeArrayExample();
    SerializeObjectExample(arr);
  }
}
