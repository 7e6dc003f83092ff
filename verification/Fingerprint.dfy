/** The canonical text of a request from which its idempotency fingerprint is hashed. */
module Fingerprint {
  import opened Wrappers
  import opened JsonText

  // `str.lower`, `str.upper` and `str.strip`; every result below holds whatever they do.
  datatype Casing = Casing(lower: Text -> Text, upper: Text -> Text, strip: Text -> Text)

  // The values a usage estimate may hold.
  type Leaf = j: Json | !j.Obj? witness Null

  datatype Request = Request(
    endpoint: Text,
    httpMethod: Text,
    payloadHash: Text,
    estimate: Option<map<string, Leaf>>,
    featureKey: Option<Text>)

  datatype Estimate = Estimate(inputChars: Leaf, maxOutputTokens: Leaf, model: Leaf)

  // The request characteristics that two equal requests share.
  datatype Normal = Normal(
    endpoint: Text,
    httpMethod: Text,
    payloadHash: Text,
    estimate: Option<Estimate>,
    featureKey: Option<Text>)

  function Get(d: map<string, Leaf>, key: string): Leaf {
    if key in d then d[key] else Null
  }

  // A missing and an empty estimate are alike, and so are a missing and an empty feature key.
  function Normalise(c: Casing, r: Request): Normal {
    Normal(
      c.strip(c.lower(r.endpoint)),
      c.strip(c.upper(r.httpMethod)),
      r.payloadHash,
      if r.estimate.None? || r.estimate.value == map[] then None
      else
        Some(Estimate(Get(r.estimate.value, "input_chars"),
                      Get(r.estimate.value, "max_output_tokens"),
                      Get(r.estimate.value, "model"))),
      if r.featureKey.None? || r.featureKey.value == [] then None else Some(c.strip(c.lower(r.featureKey.value))))
  }

  function CodePoints(s: string): Text {
    seq(|s|, i requires 0 <= i < |s| => s[i] as int)
  }

  // The object with the given members, in the given order.
  function Members(list: seq<(string, Json)>): Fields {
    if list == [] then End else More(CodePoints(list[0].0), list[0].1, Members(list[1..]))
  }

  function EstimateMembers(e: Estimate): seq<(string, Json)> {
    [("input_chars", e.inputChars), ("max_output_tokens", e.maxOutputTokens), ("model", e.model)]
  }

  function EstimateValue(e: Option<Estimate>): Json {
    if e.None? then Null else Obj(Members(EstimateMembers(e.value)))
  }

  function FeatureValue(f: Option<Text>): Json {
    if f.None? then Null else Str(f.value)
  }

  // The dictionary with its keys sorted.
  function DocumentMembers(n: Normal): seq<(string, Json)> {
    [("endpoint", Str(n.endpoint)), ("feature_key", FeatureValue(n.featureKey)), ("method", Str(n.httpMethod)),
     ("payload_hash", Str(n.payloadHash)), ("usage_estimate", EstimateValue(n.estimate))]
  }

  function Document(n: Normal): Json {
    Obj(Members(DocumentMembers(n)))
  }

  function CanonicalText(c: Casing, r: Request): string {
    Print(Document(Normalise(c, r)))
  }

  predicate ScalarNormal(n: Normal) {
    && Scalar(n.endpoint) && Scalar(n.httpMethod) && Scalar(n.payloadHash)
    && (n.featureKey.Some? ==> Scalar(n.featureKey.value))
    && (n.estimate.Some? ==>
          && AllScalar(n.estimate.value.inputChars)
          && AllScalar(n.estimate.value.maxOutputTokens)
          && AllScalar(n.estimate.value.model))
  }

  // Equal up to the UTF-16 form of the texts.
  predicate Alike(a: Normal, b: Normal) {
    && Utf16(a.endpoint) == Utf16(b.endpoint) && Utf16(a.httpMethod) == Utf16(b.httpMethod)
    && Utf16(a.payloadHash) == Utf16(b.payloadHash)
    && (a.featureKey.Some? <==> b.featureKey.Some?)
    && (a.featureKey.Some? ==> Utf16(a.featureKey.value) == Utf16(b.featureKey.value))
    && (a.estimate.Some? <==> b.estimate.Some?)
    && (a.estimate.Some? ==>
          && Same(a.estimate.value.inputChars, b.estimate.value.inputChars)
          && Same(a.estimate.value.maxOutputTokens, b.estimate.value.maxOutputTokens)
          && Same(a.estimate.value.model, b.estimate.value.model))
  }

  // ---------- The format ----------

  predicate PlainKey(s: string) {
    forall i :: 0 <= i < |s| ==> ' ' <= s[i] <= '~' && s[i] != '"' && s[i] != '\\'
  }

  lemma {:induction false} PlainEscapes(s: string)
    requires PlainKey(s)
    ensures EscapeAll(Utf16(CodePoints(s))) == s
    decreases |s|
  {
    if s != [] {
      var t := CodePoints(s);
      assert t[1..] == CodePoints(s[1..]);
      PlainEscapes(s[1..]);
      var u: Unit := s[0] as int;
      assert Escape(u) == [s[0]];
      var rest := Utf16(t[1..]);
      assert Utf16(t) == [u] + rest;
      assert Utf16(t)[1..] == rest;
      assert s == [s[0]] + s[1..];
    }
  }

  // `"key":value` members with commas between them.
  function Joined(list: seq<(string, Json)>): string {
    if list == [] then ""
    else "\"" + list[0].0 + "\":" + Print(list[0].1) + (if |list| == 1 then "" else "," + Joined(list[1..]))
  }

  lemma Reassociate(key: string, value: string, tail: string)
    ensures ("\"" + key + "\"") + (":" + (value + tail)) == "\"" + key + "\":" + value + tail
  {
  }

  lemma {:induction false} MembersPrint(list: seq<(string, Json)>)
    requires forall i :: 0 <= i < |list| ==> PlainKey(list[i].0)
    ensures PrintFields(Members(list)) == Joined(list)
    decreases |list|
  {
    if list != [] {
      MembersPrint(list[1..]);
      PlainEscapes(list[0].0);
      Reassociate(list[0].0, Print(list[0].1), if |list| == 1 then "" else "," + Joined(list[1..]));
    }
  }

  predicate PlainKeys(list: seq<(string, Json)>) {
    forall i :: 0 <= i < |list| ==> PlainKey(list[i].0)
  }

  lemma ObjectPrints(list: seq<(string, Json)>, expected: seq<(string, Json)>)
    requires PlainKeys(list) && list == expected
    ensures Print(Obj(Members(list))) == "{" + Joined(expected) + "}"
  {
    MembersPrint(list);
  }

  lemma EstimateKeysPlain(list: seq<(string, Json)>)
    requires |list| == 3
    requires list[0].0 == "input_chars" && list[1].0 == "max_output_tokens" && list[2].0 == "model"
    ensures PlainKeys(list)
  {
    assert PlainKey("input_chars") && PlainKey("max_output_tokens") && PlainKey("model");
  }

  lemma DocumentKeysPlain(list: seq<(string, Json)>)
    requires |list| == 5
    requires list[0].0 == "endpoint" && list[1].0 == "feature_key" && list[2].0 == "method"
    requires list[3].0 == "payload_hash" && list[4].0 == "usage_estimate"
    ensures PlainKeys(list)
  {
    assert PlainKey("endpoint") && PlainKey("feature_key") && PlainKey("method");
    assert PlainKey("payload_hash") && PlainKey("usage_estimate");
  }

  /** The text is the object with the five keys in sorted order, each with its own normalised value,
      without blanks; so is the estimate's, with its three keys. */
  lemma CanonicalFormat(c: Casing, r: Request, list: seq<(string, Json)>, estimate: seq<(string, Json)>)
    requires r.estimate.Some? ==>
               var e := r.estimate.value;
               estimate == [("input_chars", if "input_chars" in e then e["input_chars"] else Null),
                            ("max_output_tokens", if "max_output_tokens" in e then e["max_output_tokens"] else Null),
                            ("model", if "model" in e then e["model"] else Null)]
    requires list == [
               ("endpoint", Str(c.strip(c.lower(r.endpoint)))),
               ("feature_key", if r.featureKey.None? || r.featureKey.value == [] then Null
                               else Str(c.strip(c.lower(r.featureKey.value)))),
               ("method", Str(c.strip(c.upper(r.httpMethod)))),
               ("payload_hash", Str(r.payloadHash)),
               ("usage_estimate",
                if r.estimate.None? || r.estimate.value == map[] then Null else Obj(Members(estimate)))]
    ensures CanonicalText(c, r) == "{" + Joined(list) + "}"
    ensures r.estimate.Some? ==> Print(Obj(Members(estimate))) == "{" + Joined(estimate) + "}"
  {
    var n := Normalise(c, r);
    DocumentKeysPlain(list);
    assert n.estimate.Some? ==> EstimateMembers(n.estimate.value) == estimate;
    ObjectPrints(DocumentMembers(n), list);
    if r.estimate.Some? {
      EstimateKeysPlain(estimate);
      ObjectPrints(estimate, estimate);
    }
  }

  // ---------- When two requests share a canonical text ----------

  lemma {:induction false} MembersAlikeIff(l: seq<(string, Json)>, m: seq<(string, Json)>)
    requires |l| == |m| && forall i :: 0 <= i < |l| ==> l[i].0 == m[i].0
    ensures SameFields(Members(l), Members(m)) <==> (forall i :: 0 <= i < |l| ==> Same(l[i].1, m[i].1))
    decreases |l|
  {
    if l != [] {
      var x, y := l[1..], m[1..];
      MembersAlikeIff(x, y);
      assert (forall i :: 0 <= i < |l| ==> Same(l[i].1, m[i].1)) ==>
          (forall i :: 0 <= i < |x| ==> Same(x[i].1, y[i].1));
      assert Same(l[0].1, m[0].1) && (forall i :: 0 <= i < |x| ==> Same(x[i].1, y[i].1)) ==>
          (forall i :: 0 <= i < |l| ==> Same(l[i].1, m[i].1)) by {
        assert forall i :: 1 <= i < |l| ==> l[i] == x[i - 1] && m[i] == y[i - 1];
      }
    }
  }

  lemma ThreeAlikeIff(l: seq<(string, Json)>, m: seq<(string, Json)>)
    requires |l| == |m| == 3 && forall i :: 0 <= i < 3 ==> l[i].0 == m[i].0
    ensures Same(Obj(Members(l)), Obj(Members(m))) <==>
            Same(l[0].1, m[0].1) && Same(l[1].1, m[1].1) && Same(l[2].1, m[2].1)
  {
    MembersAlikeIff(l, m);
  }

  lemma FiveAlikeIff(l: seq<(string, Json)>, m: seq<(string, Json)>)
    requires |l| == |m| == 5 && forall i :: 0 <= i < 5 ==> l[i].0 == m[i].0
    ensures Same(Obj(Members(l)), Obj(Members(m))) <==>
            Same(l[0].1, m[0].1) && Same(l[1].1, m[1].1) && Same(l[2].1, m[2].1) &&
            Same(l[3].1, m[3].1) && Same(l[4].1, m[4].1)
  {
    MembersAlikeIff(l, m);
  }

  lemma EstimatesAlikeIff(a: Option<Estimate>, b: Option<Estimate>)
    ensures Same(EstimateValue(a), EstimateValue(b)) <==>
            ((a.Some? <==> b.Some?) &&
             (a.Some? ==>
                && Same(a.value.inputChars, b.value.inputChars)
                && Same(a.value.maxOutputTokens, b.value.maxOutputTokens)
                && Same(a.value.model, b.value.model)))
  {
    if a.Some? && b.Some? {
      ThreeAlikeIff(EstimateMembers(a.value), EstimateMembers(b.value));
    }
  }

  lemma DocumentsAlikeIff(a: Normal, b: Normal)
    ensures Same(Document(a), Document(b)) <==> Alike(a, b)
  {
    EstimatesAlikeIff(a.estimate, b.estimate);
    FiveAlikeIff(DocumentMembers(a), DocumentMembers(b));
  }

  /** Whatever case folding and stripping do, two requests have one canonical text exactly when their
      normalised characteristics agree: endpoint, method, payload hash, estimate and feature key. The
      agreement is equality on texts of Unicode scalar values, and equality of the UTF-16 forms in
      general. */
  lemma SameTextIff(c: Casing, r: Request, s: Request)
    ensures CanonicalText(c, r) == CanonicalText(c, s) <==> Alike(Normalise(c, r), Normalise(c, s))
    ensures ScalarNormal(Normalise(c, r)) && ScalarNormal(Normalise(c, s)) ==>
              (CanonicalText(c, r) == CanonicalText(c, s) <==> Normalise(c, r) == Normalise(c, s))
  {
    var a, b := Normalise(c, r), Normalise(c, s);
    PrintsAlikeIff(Document(a), Document(b));
    DocumentsAlikeIff(a, b);
    if ScalarNormal(a) && ScalarNormal(b) && Alike(a, b) {
      AlikeIsEqual(a, b);
    }
    if a == b {
      PrintsAlikeIff(Document(a), Document(b));
    }
  }

  lemma AlikeIsEqual(a: Normal, b: Normal)
    requires ScalarNormal(a) && ScalarNormal(b) && Alike(a, b)
    ensures a == b
  {
    Utf16Injective(a.endpoint, b.endpoint);
    Utf16Injective(a.httpMethod, b.httpMethod);
    Utf16Injective(a.payloadHash, b.payloadHash);
    if a.featureKey.Some? {
      Utf16Injective(a.featureKey.value, b.featureKey.value);
    }
    if a.estimate.Some? {
      SameIsEqual(a.estimate.value.inputChars, b.estimate.value.inputChars);
      SameIsEqual(a.estimate.value.maxOutputTokens, b.estimate.value.maxOutputTokens);
      SameIsEqual(a.estimate.value.model, b.estimate.value.model);
    }
  }

  /** An estimate without any of the three keys is not the same as none. */
  lemma ForeignEstimateCounts(c: Casing, r: Request, key: string, value: Leaf)
    requires key !in {"input_chars", "max_output_tokens", "model"}
    ensures CanonicalText(c, r.(estimate := Some(map[key := value]))) != CanonicalText(c, r.(estimate := None))
    ensures CanonicalText(c, r.(estimate := Some(map[]))) == CanonicalText(c, r.(estimate := None))
  {
    SameTextIff(c, r.(estimate := Some(map[key := value])), r.(estimate := None));
    assert key in map[key := value];
  }
}
