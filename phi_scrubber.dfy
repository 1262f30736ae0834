/** The sensitive-field redactor: values under a fixed set of field names are
    replaced by a marker, recursively through arrays and objects, and the
    input is left as it was (values are immutable here, so "not mutated" is
    given by the type system). */
module PhiScrubber {
  import opened JsonValue

  const SensitiveFields: seq<string> := ["patient_name", "ssn", "dob", "address", "phone"]
  const Marker: string := "[REDACTED]"

  predicate IsSensitive(key: string) {
    key in SensitiveFields
  }

  /** Specification of scrubPHI. */
  function Scrub(data: Json): (r: Json)
    decreases data, 1
    ensures !IsContainer(data) ==> r == data
    ensures data.Arr? <==> r.Arr?
    ensures data.Arr? ==> |r.items| == |data.items|
    ensures data.Obj? <==> r.Obj?
    ensures data.Obj? ==> r.fields.Keys == data.fields.Keys
  {
    if !Truthy(data) then data
    else match data
      case Arr(items) => Arr(seq(|items|, i requires 0 <= i < |items| => Scrub(items[i])))
      case Obj(fields) => Obj(map k | k in fields :: Rewrite(k, fields[k]))
      case _ => data
  }

  /** The new value of field `key` of an object whose old value is `v`. */
  function Rewrite(key: string, v: Json): (r: Json)
    decreases v, 2
  {
    if IsSensitive(key) then Str(Marker)
    else if IsObjectType(v) then Scrub(v)
    else v
  }

  /** No sensitive field anywhere in `j` holds anything but the marker. */
  predicate NoPHI(j: Json) {
    match j
    case Arr(items) => forall i :: 0 <= i < |items| ==> NoPHI(items[i])
    case Obj(fields) =>
      forall k :: k in fields ==> if IsSensitive(k) then fields[k] == Str(Marker) else NoPHI(fields[k])
    case _ => true
  }

  /** `r` has the structure of `x` and equals it everywhere except under
      sensitive field names: same primitives, same array lengths, same key sets. */
  predicate AgreesOutsidePHI(r: Json, x: Json) {
    match x
    case Arr(xs) =>
      r.Arr? && |r.items| == |xs| && forall i :: 0 <= i < |xs| ==> AgreesOutsidePHI(r.items[i], xs[i])
    case Obj(xf) =>
      r.Obj? && r.fields.Keys == xf.Keys &&
      forall k :: k in xf && !IsSensitive(k) ==> AgreesOutsidePHI(r.fields[k], xf[k])
    case _ => r == x
  }

  /** Every field named sensitive, at any depth, is redacted in the result. */
  lemma {:induction false} ScrubRemovesPHI(x: Json)
    ensures NoPHI(Scrub(x))
  {
    match x
    case Arr(items) =>
      forall i | 0 <= i < |items| ensures NoPHI(Scrub(x).items[i]) {
        ScrubRemovesPHI(items[i]);
      }
    case Obj(fields) =>
      forall k | k in fields && !IsSensitive(k) ensures NoPHI(Scrub(x).fields[k]) {
        ScrubRemovesPHI(fields[k]);
      }
    case _ =>
  }

  /** Outside sensitive fields the result is the input: structure, array
      lengths, key sets and every non-sensitive primitive are preserved. */
  lemma {:induction false} ScrubPreservesOutsidePHI(x: Json)
    ensures AgreesOutsidePHI(Scrub(x), x)
  {
    match x
    case Arr(items) =>
      forall i | 0 <= i < |items| ensures AgreesOutsidePHI(Scrub(x).items[i], items[i]) {
        ScrubPreservesOutsidePHI(items[i]);
      }
    case Obj(fields) =>
      forall k | k in fields && !IsSensitive(k) ensures AgreesOutsidePHI(Scrub(x).fields[k], fields[k]) {
        ScrubPreservesOutsidePHI(fields[k]);
      }
    case _ =>
  }

  /** The two lemmas above characterise Scrub: it is the only value that
      agrees with the input outside sensitive fields and holds no PHI. */
  lemma {:induction false} ScrubIsUnique(x: Json, r: Json)
    requires AgreesOutsidePHI(r, x) && NoPHI(r)
    ensures r == Scrub(x)
  {
    match x
    case Arr(xs) =>
      forall i | 0 <= i < |xs| ensures r.items[i] == Scrub(x).items[i] {
        ScrubIsUnique(xs[i], r.items[i]);
      }
    case Obj(xf) =>
      forall k | k in xf ensures r.fields[k] == Scrub(x).fields[k] {
        if !IsSensitive(k) {
          ScrubIsUnique(xf[k], r.fields[k]);
          if !IsObjectType(xf[k]) {
            assert AgreesOutsidePHI(r.fields[k], xf[k]);
          }
        }
      }
    case _ =>
  }

  /** A value is left unchanged by Scrub exactly when it holds no PHI. */
  lemma ScrubFixedIffNoPHI(x: Json)
    ensures Scrub(x) == x <==> NoPHI(x)
  {
    ScrubRemovesPHI(x);
    if NoPHI(x) {
      AgreesReflexive(x);
      ScrubIsUnique(x, x);
    }
  }

  lemma {:induction false} AgreesReflexive(x: Json)
    ensures AgreesOutsidePHI(x, x)
  {
    match x
    case Arr(xs) =>
      forall i | 0 <= i < |xs| ensures AgreesOutsidePHI(xs[i], xs[i]) {
        AgreesReflexive(xs[i]);
      }
    case Obj(xf) =>
      forall k | k in xf && !IsSensitive(k) ensures AgreesOutsidePHI(xf[k], xf[k]) {
        AgreesReflexive(xf[k]);
      }
    case _ =>
  }

  /** Redacting twice is redacting once. */
  lemma ScrubIdempotent(x: Json)
    ensures Scrub(Scrub(x)) == Scrub(x)
  {
    ScrubRemovesPHI(x);
    ScrubFixedIffNoPHI(Scrub(x));
  }

  /** A field nested two objects deep is redacted, and a non-sensitive
      sibling keeps its value. */
  lemma NestedExample()
    ensures Scrub(Obj(map[
        "metadata" := Obj(map["patient_name" := Str("John Doe"), "details" := Obj(map["ssn" := Str("123-456-7890")])]),
        "status" := Str("active")]))
      == Obj(map[
        "metadata" := Obj(map["patient_name" := Str(Marker), "details" := Obj(map["ssn" := Str(Marker)])]),
        "status" := Str("active")])
  {
    var details := Obj(map["ssn" := Str("123-456-7890")]);
    var metadata := Obj(map["patient_name" := Str("John Doe"), "details" := details]);
    var data := Obj(map["metadata" := metadata, "status" := Str("active")]);
    assert IsSensitive("ssn") && IsSensitive("patient_name");
    assert !IsSensitive("details") && !IsSensitive("metadata") && !IsSensitive("status");
    assert Scrub(details) == Obj(map["ssn" := Str(Marker)]);
    assert Scrub(metadata) == Obj(map["patient_name" := Str(Marker), "details" := Scrub(details)]);
    assert Scrub(data) == Obj(map["metadata" := Scrub(metadata), "status" := Str("active")]);
  }

  /** scrubPHI as the source writes it: a `map` over arrays, and a loop over
      the keys of a shallow copy of an object that rewrites each field. The
      loop visits keys in an arbitrary order. */
  method ScrubPHI(data: Json) returns (r: Json)
    decreases data
    ensures r == Scrub(data)
  {
    if !Truthy(data) {
      return data;
    }
    match data {
      case Arr(items) =>
        var out: seq<Json> := [];
        var i := 0;
        while i < |items|
          invariant 0 <= i <= |items|
          invariant |out| == i
          invariant forall j :: 0 <= j < i ==> out[j] == Scrub(items[j])
        {
          var item := ScrubPHI(items[i]);
          out := out + [item];
          i := i + 1;
        }
        r := Arr(out);
      case Obj(fields) =>
        var cleaned := fields;
        var pending := fields.Keys;
        while pending != {}
          invariant pending <= fields.Keys
          invariant cleaned.Keys == fields.Keys
          invariant forall k :: k in fields && k !in pending ==> cleaned[k] == Rewrite(k, fields[k])
          invariant forall k :: k in pending ==> cleaned[k] == fields[k]
          decreases pending
        {
          var key :| key in pending;
          if IsSensitive(key) {
            cleaned := cleaned[key := Str(Marker)];
          } else if IsObjectType(cleaned[key]) {
            var v := ScrubPHI(fields[key]);
            cleaned := cleaned[key := v];
          }
          pending := pending - {key};
        }
        r := Obj(cleaned);
      case _ =>
        r := data;
    }
  }
}
