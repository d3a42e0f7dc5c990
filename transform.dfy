/**
 * The kernel transform (src/kernel/transform.ts): a total function from any
 * value to either an error document with a stable error code or a copy of
 * the input with a `provenance` record attached; and the document shapes
 * the kernel and its consumers share (Provenance, TransformError,
 * UncertaintyAnnotation), each with the JSON it is written as and a decoder
 * back from that JSON.
 */
module Kernel {
  import opened Json
  import opened Canonicalize
  import opened Stringify

  /** The values `typeof` does not call "object". */
  datatype HostKind = Undefined | Function | Symbol | BigInt

  /** Anything a caller can pass: a JSON value or some other JavaScript value. */
  datatype Input = Value(v: Json) | Host(kind: HostKind)

  const KernelVersion: string := "0.1.0"
  const SchemaOrg: string := "https://schema.org"

  const InvalidInput: string := "INVALID_INPUT"
  const InvalidInputMessage: string := "Input must be a non-null, non-array object"
  const InvalidContext: string := "INVALID_CONTEXT"
  const InvalidContextMessage: string := "Input must include an @context property"

  /** Passes the shape check: not null, of type "object", not an array. */
  predicate IsRecord(input: Input)
  {
    input.Value? && input.v.JObj?
  }

  /** Passes both checks: a record with an `@context` member. */
  predicate IsDocument(input: Input)
  {
    IsRecord(input) && HasKey(input.v.members, "@context")
  }

  /** An object with exactly the given member names, each once, in any order. */
  predicate KeysExactly(ms: Members, keys: seq<string>)
  {
    && UniqueKeys(ms)
    && (forall i :: 0 <= i < |ms| ==> ms[i].0 in keys)
    && (forall k :: k in keys ==> HasKey(ms, k))
  }

  lemma KeysExactlyMembers(ms: Members, keys: seq<string>, k: string)
    requires KeysExactly(ms, keys) && HasKey(ms, k)
    ensures k in keys
  {
    var i := IndexOf(ms, k);
  }

  /** The value of a member known to be present. */
  function Member(ms: Members, k: string): Json
    requires HasKey(ms, k)
  {
    ms[IndexOf(ms, k)].1
  }

  function StringsJson(ss: seq<string>): (r: Json)
    ensures r.JArr? && |r.items| == |ss|
    ensures forall i :: 0 <= i < |ss| ==> r.items[i] == JStr(ss[i])
  {
    JArr(seq(|ss|, i requires 0 <= i < |ss| => JStr(ss[i])))
  }

  /** A JSON array of strings, read back. */
  function StringsOf(j: Json): (r: Option<seq<string>>)
    ensures r.Some? <==> j.JArr? && forall i :: 0 <= i < |j.items| ==> j.items[i].JStr?
    ensures r.Some? ==> |r.value| == |j.items| && forall i :: 0 <= i < |r.value| ==> j.items[i] == JStr(r.value[i])
  {
    if j.JArr? && forall i :: 0 <= i < |j.items| ==> j.items[i].JStr? then
      Some(seq(|j.items|, i requires 0 <= i < |j.items| => j.items[i].s))
    else None
  }

  lemma StringsRoundTrip(ss: seq<string>)
    ensures StringsOf(StringsJson(ss)) == Some(ss)
  {
    var back := StringsOf(StringsJson(ss)).value;
    assert back == ss;
  }

  // --- Provenance -----------------------------------------------------------

  /** Deterministic provenance: a version and the names of the rules that ran, no clock. */
  datatype Provenance = Provenance(kernelVersion: string, rulesApplied: seq<string>)

  function ProvenanceJson(p: Provenance): Json
  {
    JObj([("@type", JStr("Provenance")),
          ("kernelVersion", JStr(p.kernelVersion)),
          ("rulesApplied", StringsJson(p.rulesApplied))])
  }

  function ProvenanceOf(j: Json): (r: Option<Provenance>)
    ensures r.Some? ==> j.JObj? && KeysExactly(j.members, ["@type", "kernelVersion", "rulesApplied"])
  {
    if j.JObj? && KeysExactly(j.members, ["@type", "kernelVersion", "rulesApplied"])
       && Member(j.members, "@type") == JStr("Provenance")
       && Member(j.members, "kernelVersion").JStr?
       && StringsOf(Member(j.members, "rulesApplied")).Some?
    then Some(Provenance(Member(j.members, "kernelVersion").s, StringsOf(Member(j.members, "rulesApplied")).value))
    else None
  }

  /** A provenance record reads back as itself, and its JSON has unique keys throughout. */
  lemma ProvenanceRoundTrip(p: Provenance)
    ensures ProvenanceOf(ProvenanceJson(p)) == Some(p)
    ensures WellFormed(ProvenanceJson(p))
  {
    var ms := ProvenanceJson(p).members;
    IndexOfUnique(ms, 0);
    IndexOfUnique(ms, 1);
    IndexOfUnique(ms, 2);
    StringsRoundTrip(p.rulesApplied);
  }

  // --- Error documents --------------------------------------------------------

  /** The two fields in which error documents differ. */
  datatype ErrorDoc = ErrorDoc(errorCode: string, message: string)

  const ErrorKeys: seq<string> := ["@context", "@type", "errorCode", "error", "provenance"]

  /** `makeError(errorCode, message)`, members in the order the literal lists them. */
  function MakeError(errorCode: string, message: string): (r: Json)
    ensures r.JObj? && KeysOf(r.members) == ErrorKeys
  {
    JObj([("@context", JStr(SchemaOrg)),
          ("@type", JStr("Error")),
          ("errorCode", JStr(errorCode)),
          ("error", JStr(message)),
          ("provenance", ProvenanceJson(Provenance(KernelVersion, [])))])
  }

  /**
   * Reads a TransformError back: exactly the five members, the schema.org
   * context, type "Error", two strings, and provenance of this kernel
   * version with no rule applied.
   */
  function ErrorOf(j: Json): Option<ErrorDoc>
  {
    if j.JObj? && KeysExactly(j.members, ErrorKeys) then ErrorFields(j.members) else None
  }

  /** The fields of an object whose member names are exactly the error keys. */
  function ErrorFields(ms: Members): Option<ErrorDoc>
    requires KeysExactly(ms, ErrorKeys)
  {
    assert ErrorKeys[0] == "@context" && ErrorKeys[1] == "@type" && ErrorKeys[2] == "errorCode";
    assert ErrorKeys[3] == "error" && ErrorKeys[4] == "provenance";
    if && Member(ms, "@context") == JStr(SchemaOrg)
       && Member(ms, "@type") == JStr("Error")
       && Member(ms, "errorCode").JStr?
       && Member(ms, "error").JStr?
       && ProvenanceOf(Member(ms, "provenance")) == Some(Provenance(KernelVersion, []))
    then Some(ErrorDoc(Member(ms, "errorCode").s, Member(ms, "error").s))
    else None
  }

  /** Every error document has the fixed context, type and provenance, and carries its code and message. */
  lemma MakeErrorRoundTrip(errorCode: string, message: string)
    ensures ErrorOf(MakeError(errorCode, message)) == Some(ErrorDoc(errorCode, message))
    ensures WellFormed(MakeError(errorCode, message))
  {
    ErrorDocFields(errorCode, message);
    ErrorOfFields(MakeError(errorCode, message), errorCode, message);
    MakeErrorWellFormed(errorCode, message);
  }

  lemma MakeErrorWellFormed(errorCode: string, message: string)
    ensures WellFormed(MakeError(errorCode, message))
  {
    var ms := MakeError(errorCode, message).members;
    ErrorDocIndices(errorCode, message);
    forall i | 0 <= i < |ms|
      ensures WellFormed(ms[i].1)
    {
      if i == 4 {
        ProvenanceRoundTrip(Provenance(KernelVersion, []));
      }
    }
  }

  /** The reading of a document with the five error fields. */
  lemma ErrorOfFields(j: Json, errorCode: string, message: string)
    requires j.JObj? && KeysExactly(j.members, ErrorKeys)
    requires Member(j.members, "@context") == JStr(SchemaOrg) && Member(j.members, "@type") == JStr("Error")
    requires Member(j.members, "errorCode") == JStr(errorCode) && Member(j.members, "error") == JStr(message)
    requires Member(j.members, "provenance") == ProvenanceJson(Provenance(KernelVersion, []))
    ensures ErrorOf(j) == Some(ErrorDoc(errorCode, message))
  {
    ProvenanceRoundTrip(Provenance(KernelVersion, []));
  }

  lemma ErrorDocFields(errorCode: string, message: string)
    ensures var ms := MakeError(errorCode, message).members;
      && KeysExactly(ms, ErrorKeys)
      && Member(ms, "@context") == JStr(SchemaOrg)
      && Member(ms, "@type") == JStr("Error")
      && Member(ms, "errorCode") == JStr(errorCode)
      && Member(ms, "error") == JStr(message)
      && Member(ms, "provenance") == ProvenanceJson(Provenance(KernelVersion, []))
  {
    var ms := MakeError(errorCode, message).members;
    ErrorDocIndices(errorCode, message);
    assert ms[0].0 == "@context" && ms[1].0 == "@type" && ms[2].0 == "errorCode";
    assert ms[3].0 == "error" && ms[4].0 == "provenance";
  }

  lemma ErrorDocIndices(errorCode: string, message: string)
    ensures var ms := MakeError(errorCode, message).members;
      UniqueKeys(ms) && forall i :: 0 <= i < |ms| ==> HasKey(ms, ms[i].0) && IndexOf(ms, ms[i].0) == i
  {
    var ms := MakeError(errorCode, message).members;
    assert KeysOf(ms) == ErrorKeys;
    forall i | 0 <= i < |ms|
      ensures HasKey(ms, ms[i].0) && IndexOf(ms, ms[i].0) == i
    {
      IndexOfUnique(ms, i);
    }
  }

  /** An error document has no member outside the five error fields. */
  lemma ErrorKeysOnly(j: Json, k: string)
    ensures ErrorOf(j).Some? && HasKey(j.members, k) ==> k in ErrorKeys
  {
    if ErrorOf(j).Some? && HasKey(j.members, k) {
      KeysExactlyMembers(j.members, ErrorKeys, k);
    }
  }

  // --- Uncertainty annotations ----------------------------------------------

  datatype UncertaintyStatus = Deferred | Assumed | Unknown

  function StatusName(s: UncertaintyStatus): string
  {
    match s
    case Deferred => "deferred"
    case Assumed => "assumed"
    case Unknown => "unknown"
  }

  function StatusOf(name: string): (r: Option<UncertaintyStatus>)
    ensures r.Some? ==> StatusName(r.value) == name
  {
    if name == "deferred" then Some(Deferred)
    else if name == "assumed" then Some(Assumed)
    else if name == "unknown" then Some(Unknown)
    else None
  }

  lemma StatusRoundTrip(s: UncertaintyStatus)
    ensures StatusOf(StatusName(s)) == Some(s)
  {
  }

  /** An unresolved value: why it is unresolved and which fields that depends on. */
  datatype Uncertainty = Uncertainty(status: UncertaintyStatus, reason: string, references: seq<string>)

  function UncertaintyJson(u: Uncertainty): Json
  {
    JObj([("@type", JStr("Uncertainty")),
          ("status", JStr(StatusName(u.status))),
          ("reason", JStr(u.reason)),
          ("references", StringsJson(u.references))])
  }

  function UncertaintyOf(j: Json): (r: Option<Uncertainty>)
    ensures r.Some? ==> j.JObj? && KeysExactly(j.members, ["@type", "status", "reason", "references"])
  {
    if j.JObj? && KeysExactly(j.members, ["@type", "status", "reason", "references"])
       && Member(j.members, "@type") == JStr("Uncertainty")
       && Member(j.members, "status").JStr?
       && StatusOf(Member(j.members, "status").s).Some?
       && Member(j.members, "reason").JStr?
       && StringsOf(Member(j.members, "references")).Some?
    then Some(Uncertainty(StatusOf(Member(j.members, "status").s).value,
                          Member(j.members, "reason").s,
                          StringsOf(Member(j.members, "references")).value))
    else None
  }

  lemma UncertaintyRoundTrip(u: Uncertainty)
    ensures UncertaintyOf(UncertaintyJson(u)) == Some(u)
    ensures WellFormed(UncertaintyJson(u))
  {
    UncertaintyFields(u);
    UncertaintyOfFields(UncertaintyJson(u), u);
    UncertaintyWellFormed(u);
  }

  lemma UncertaintyFields(u: Uncertainty)
    ensures var ms := UncertaintyJson(u).members;
      && KeysExactly(ms, ["@type", "status", "reason", "references"])
      && Member(ms, "@type") == JStr("Uncertainty")
      && Member(ms, "status") == JStr(StatusName(u.status))
      && Member(ms, "reason") == JStr(u.reason)
      && Member(ms, "references") == StringsJson(u.references)
  {
    var ms := UncertaintyJson(u).members;
    forall i | 0 <= i < 4
      ensures HasKey(ms, ms[i].0) && IndexOf(ms, ms[i].0) == i
    {
      IndexOfUnique(ms, i);
    }
    assert ms[0].0 == "@type" && ms[1].0 == "status" && ms[2].0 == "reason" && ms[3].0 == "references";
  }

  /** The reading of an object with the four uncertainty fields. */
  lemma UncertaintyOfFields(j: Json, u: Uncertainty)
    requires j.JObj? && KeysExactly(j.members, ["@type", "status", "reason", "references"])
    requires Member(j.members, "@type") == JStr("Uncertainty")
    requires Member(j.members, "status") == JStr(StatusName(u.status))
    requires Member(j.members, "reason") == JStr(u.reason)
    requires Member(j.members, "references") == StringsJson(u.references)
    ensures UncertaintyOf(j) == Some(u)
  {
    StatusRoundTrip(u.status);
    StringsRoundTrip(u.references);
  }

  lemma UncertaintyWellFormed(u: Uncertainty)
    ensures WellFormed(UncertaintyJson(u))
  {
    var ms := UncertaintyJson(u).members;
    assert KeysOf(ms) == ["@type", "status", "reason", "references"];
    forall i | 0 <= i < |ms|
      ensures WellFormed(ms[i].1)
    {
      if i == 3 {
        var items := StringsJson(u.references).items;
        assert forall n :: 0 <= n < |items| ==> WellFormed(items[n]);
      }
    }
  }

  // --- The transform ----------------------------------------------------------

  /**
   * `{...out, provenance}`: the members of `out`, in their order, with
   * `provenance` overwritten in place or added last.
   */
  function Attach(out: Members, rules: seq<string>): Members
  {
    Set(out, "provenance", ProvenanceJson(Provenance(KernelVersion, rules)))
  }

  /**
   * `r` is `out` with provenance attached: every other member keeps its
   * value, `provenance` holds the record for `rules`, no other name is
   * added and the names of `out` keep their order at the front.
   */
  ghost predicate AttachedTo(r: Members, out: Members, rules: seq<string>)
  {
    && (forall k :: k != "provenance" ==> Get(r, k) == Get(out, k))
    && Get(r, "provenance") == Some(ProvenanceJson(Provenance(KernelVersion, rules)))
    && (forall k :: HasKey(r, k) <==> HasKey(out, k) || k == "provenance")
    && |out| <= |r| && KeysOf(r)[..|out|] == KeysOf(out)
  }

  lemma AttachIsAttached(out: Members, rules: seq<string>)
    ensures AttachedTo(Attach(out, rules), out, rules)
  {
  }

  /**
   * Nor is a document with a member no error document has, whatever rules
   * are recorded.
   */
  lemma AttachKeepsNoError(out: Members, rules: seq<string>, k: string)
    requires HasKey(out, k) && k !in ErrorKeys
    ensures ErrorOf(JObj(Attach(out, rules))).None?
  {
    var r := Attach(out, rules);
    AttachIsAttached(out, rules);
    if rules != [] {
      AttachedIsNotError(r, out, rules);
    } else {
      assert HasKey(r, k);
      ErrorKeysOnly(JObj(r), k);
    }
  }

  /** A document with provenance attached is never mistaken for an error document. */
  lemma AttachedIsNotError(r: Members, out: Members, rules: seq<string>)
    requires AttachedTo(r, out, rules) && rules != []
    ensures ErrorOf(JObj(r)).None?
  {
    var p := Provenance(KernelVersion, rules);
    ProvenanceRoundTrip(p);
    if KeysExactly(r, ErrorKeys) {
      assert "provenance" in ErrorKeys;
      assert Member(r, "provenance") == ProvenanceJson(p);
    }
  }

  /** `transform(input)`. */
  function Transform(input: Input): Json
  {
    if !IsRecord(input) then MakeError(InvalidInput, InvalidInputMessage)
    else if !HasKey(input.v.members, "@context") then MakeError(InvalidContext, InvalidContextMessage)
    else JObj(Attach(input.v.members, ["identity"]))
  }

  /**
   * The error taxonomy: `INVALID_INPUT` exactly when the shape check fails,
   * `INVALID_CONTEXT` exactly when the shape is right but `@context` is
   * missing, and no error document at all otherwise.
   */
  lemma TransformErrors(input: Input)
    ensures ErrorOf(Transform(input)) == Some(ErrorDoc(InvalidInput, InvalidInputMessage)) <==> !IsRecord(input)
    ensures ErrorOf(Transform(input)) == Some(ErrorDoc(InvalidContext, InvalidContextMessage))
            <==> IsRecord(input) && !HasKey(input.v.members, "@context")
    ensures ErrorOf(Transform(input)).None? <==> IsDocument(input)
  {
    if !IsRecord(input) {
      MakeErrorRoundTrip(InvalidInput, InvalidInputMessage);
    } else if !HasKey(input.v.members, "@context") {
      MakeErrorRoundTrip(InvalidContext, InvalidContextMessage);
    } else {
      AttachIsAttached(input.v.members, ["identity"]);
      AttachedIsNotError(Attach(input.v.members, ["identity"]), input.v.members, ["identity"]);
    }
  }

  /**
   * On a document the result is the input with provenance
   * `{"@type":"Provenance","kernelVersion":"0.1.0","rulesApplied":["identity"]}`
   * attached, and nothing else different.
   */
  lemma TransformSuccess(input: Input)
    requires IsDocument(input)
    ensures Transform(input).JObj?
    ensures AttachedTo(Transform(input).members, input.v.members, ["identity"])
    ensures ProvenanceOf(Get(Transform(input).members, "provenance").value)
            == Some(Provenance("0.1.0", ["identity"]))
  {
    AttachIsAttached(input.v.members, ["identity"]);
    ProvenanceRoundTrip(Provenance(KernelVersion, ["identity"]));
  }

  /**
   * The type tag alone does not tell the two variants apart: a document
   * whose own `@type` is `"Error"` keeps it on success.
   */
  lemma SuccessCanCarryErrorTag(input: Input)
    requires IsDocument(input) && Get(input.v.members, "@type") == Some(JStr("Error"))
    ensures ErrorOf(Transform(input)).None?
    ensures Get(Transform(input).members, "@type") == Some(JStr("Error"))
  {
    TransformErrors(input);
    TransformSuccess(input);
  }

  /** Every output is valid JSON with unique member names when the input is. */
  lemma TransformWellFormed(input: Input)
    requires input.Value? ==> WellFormed(input.v)
    ensures WellFormed(Transform(input))
  {
    if !IsRecord(input) {
      MakeErrorRoundTrip(InvalidInput, InvalidInputMessage);
    } else if !HasKey(input.v.members, "@context") {
      MakeErrorRoundTrip(InvalidContext, InvalidContextMessage);
    } else {
      ProvenanceRoundTrip(Provenance(KernelVersion, ["identity"]));
      SetWellFormed(input.v.members, "provenance", ProvenanceJson(Provenance(KernelVersion, ["identity"])));
    }
  }

  /**
   * Inputs differing only in member order give the same stable string,
   * compact or pretty: the determinism the kernel's tests compare on.
   */
  lemma TransformKeyOrderIndependent(a: Json, b: Json, pretty: bool)
    requires WellFormed(a) && WellFormed(b) && SameUpToOrder(a, b)
    ensures StableStringify(Transform(Value(a)), pretty) == StableStringify(Transform(Value(b)), pretty)
  {
    TransformWellFormed(Value(a));
    TransformWellFormed(Value(b));
    if a.JObj? {
      SameKeys(a.members, b.members);
      if HasKey(a.members, "@context") {
        var p := ProvenanceJson(Provenance(KernelVersion, ["identity"]));
        SameUpToOrderReflexive(p);
        SetSameUpToOrder(a.members, b.members, "provenance", p, p);
      }
    }
    if !(a.JObj? && HasKey(a.members, "@context")) {
      assert Transform(Value(a)) == Transform(Value(b));
      SameUpToOrderReflexive(Transform(Value(a)));
    }
    StableStringifyRespectsKeyOrder(Transform(Value(a)), Transform(Value(b)), pretty);
  }
}
