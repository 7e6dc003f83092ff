/** The admin panel's signed token: four fields joined by colons, and its validation. */
module AdminToken {
  import opened Wrappers
  import opened DecimalText

  const TOKEN_MAX_AGE: real := 86400.0

  /** `mac` is the truncated HMAC of a message under a secret and `parse` is `int` on a text; of
      them only what `Sane` says is used. */
  datatype Config = Config(
    secret: string,
    credentialsHash: string,
    version: int,
    mac: (string, string) -> string,
    parse: string -> Option<int>)

  predicate NoColon(s: string) {
    ':' !in s
  }

  /** The hash and the signatures are hexadecimal, and `int` reads back what `str` prints. */
  ghost predicate Sane(c: Config) {
    && NoColon(c.credentialsHash)
    && (forall message :: NoColon(c.mac(c.secret, message)))
    && (forall n :: c.parse(IntText(n)) == Some(n))
  }

  // ---------- Splitting and joining ----------

  function Split(s: string): (parts: seq<string>)
    ensures 1 <= |parts|
  {
    if s == [] then [""]
    else
      var rest := Split(s[1..]);
      if s[0] == ':' then [""] + rest else [[s[0]] + rest[0]] + rest[1..]
  }

  function Join(parts: seq<string>): string {
    if parts == [] then "" else if |parts| == 1 then parts[0] else parts[0] + ":" + Join(parts[1..])
  }

  lemma Longer(c: char, p: string, q: string)
    ensures ([c] + p) + ":" + q == [c] + (p + ":" + q)
  {
  }

  lemma {:induction false} SplitParts(s: string)
    ensures forall i :: 0 <= i < |Split(s)| ==> NoColon(Split(s)[i])
    ensures Join(Split(s)) == s
  {
    if s != [] {
      SplitParts(s[1..]);
      var parts := Split(s[1..]);
      assert ([[s[0]] + parts[0]] + parts[1..])[1..] == parts[1..];
      Longer(s[0], parts[0], Join(parts[1..]));
      assert ([""] + parts)[1..] == parts;
      assert "" + ":" + Join(parts) == ":" + Join(parts);
      assert s == [s[0]] + s[1..];
    }
  }

  lemma {:induction false} SplitPlain(s: string)
    requires NoColon(s)
    ensures Split(s) == [s]
  {
    if s != [] {
      SplitPlain(s[1..]);
      assert s == [s[0]] + s[1..];
    }
  }

  lemma {:induction false} SplitFirst(p: string, rest: string)
    requires NoColon(p)
    ensures Split(p + ":" + rest) == [p] + Split(rest)
    decreases |p|
  {
    var s := p + ":" + rest;
    if p == [] {
      assert s[1..] == rest;
    } else {
      assert s[1..] == p[1..] + ":" + rest;
      SplitFirst(p[1..], rest);
      assert p == [p[0]] + p[1..];
    }
  }

  /** Colon-free fields are recovered from their join. */
  lemma {:induction false} SplitJoin(parts: seq<string>)
    requires parts != [] && forall i :: 0 <= i < |parts| ==> NoColon(parts[i])
    ensures Split(Join(parts)) == parts
    decreases |parts|
  {
    if |parts| == 1 {
      SplitPlain(parts[0]);
    } else {
      SplitJoin(parts[1..]);
      SplitFirst(parts[0], Join(parts[1..]));
      assert parts == [parts[0]] + parts[1..];
    }
  }

  // ---------- The token ----------

  function Message(hash: string, version: string, timestamp: string): string {
    hash + ":" + version + ":" + timestamp
  }

  function TokenText(hash: string, version: string, timestamp: string, signature: string): string {
    Message(hash, version, timestamp) + ":" + signature
  }

  // Before base64, which is undone before anything else is looked at.
  function CreateToken(c: Config, now: real): string
    requires 0.0 <= now
  {
    var version, timestamp := IntText(c.version), IntText(now.Floor);
    TokenText(c.credentialsHash, version, timestamp, c.mac(c.secret, Message(c.credentialsHash, version, timestamp)))
  }

  function ValidateToken(c: Config, token: string, now: real): bool {
    var parts := Split(token);
    if |parts| != 4 then false
    else
      var timestamp := c.parse(parts[2]);
      if timestamp.None? then false
      else if now - timestamp.value as real > TOKEN_MAX_AGE then false
      else if parts[1] != IntText(c.version) then false
      else if parts[0] != c.credentialsHash then false
      else parts[3] == c.mac(c.secret, Message(parts[0], parts[1], parts[2]))
  }

  lemma TokenIsJoin(a: string, b: string, c: string, d: string)
    ensures TokenText(a, b, c, d) == Join([a, b, c, d])
  {
    assert [a, b, c, d][1..] == [b, c, d] && [b, c, d][1..] == [c, d] && [c, d][1..] == [d];
    assert Join([d]) == d && Join([c, d]) == c + ":" + d;
    assert Join([b, c, d]) == b + ":" + (c + ":" + d);
    assert TokenText(a, b, c, d) == a + ":" + (b + ":" + (c + ":" + d));
  }

  lemma IntTextNoColon(n: int)
    ensures NoColon(IntText(n))
  {
    IntTextPlain(n);
  }

  lemma FieldsRecovered(a: string, b: string, c: string, d: string)
    requires NoColon(a) && NoColon(b) && NoColon(c) && NoColon(d)
    ensures Split(TokenText(a, b, c, d)) == [a, b, c, d]
  {
    TokenIsJoin(a, b, c, d);
    SplitJoin([a, b, c, d]);
  }

  /** Splitting a created token gives back the hash, the version, the time and the signature. */
  lemma CreatedTokenFields(c: Config, now: real)
    requires Sane(c) && 0.0 <= now
    ensures var message := Message(c.credentialsHash, IntText(c.version), IntText(now.Floor));
            Split(CreateToken(c, now)) ==
            [c.credentialsHash, IntText(c.version), IntText(now.Floor), c.mac(c.secret, message)]
    ensures var message := c.credentialsHash + ":" + IntText(c.version) + ":" + IntText(now.Floor);
            CreateToken(c, now) == message + ":" + c.mac(c.secret, message)
  {
    IntTextNoColon(c.version);
    IntTextNoColon(now.Floor);
    FieldsRecovered(c.credentialsHash, IntText(c.version), IntText(now.Floor),
                    c.mac(c.secret, Message(c.credentialsHash, IntText(c.version), IntText(now.Floor))));
  }

  /** A token created under one configuration is accepted under another exactly when it is at most a
      day old, the version and the credentials hash are the same, and the signatures agree. */
  lemma CreatedTokenAcceptedIff(c: Config, d: Config, created: real, now: real)
    requires Sane(c) && Sane(d) && 0.0 <= created
    ensures ValidateToken(d, CreateToken(c, created), now) <==>
            (&& now - created.Floor as real <= 86400.0
             && c.version == d.version && c.credentialsHash == d.credentialsHash
             && var message := Message(c.credentialsHash, IntText(c.version), IntText(created.Floor));
                c.mac(c.secret, message) == d.mac(d.secret, message))
  {
    CreatedTokenFields(c, created);
    IntRoundTrip(c.version);
    IntRoundTrip(d.version);
  }

  /** The texts that are accepted are exactly those that carry this configuration's hash and version,
      a readable time at most a day old, and the signature of just that: changing any one field of a
      token is refused unless the result is again such a text. */
  lemma AcceptedIff(c: Config, token: string, now: real)
    requires Sane(c)
    ensures ValidateToken(c, token, now) <==>
            (exists timestamp: string ::
               && NoColon(timestamp) && c.parse(timestamp).Some?
               && now - c.parse(timestamp).value as real <= 86400.0
               && token == TokenText(c.credentialsHash, IntText(c.version), timestamp,
                                     c.mac(c.secret, Message(c.credentialsHash, IntText(c.version), timestamp))))
  {
    var parts := Split(token);
    SplitParts(token);
    if |parts| == 4 {
      TokenIsJoin(parts[0], parts[1], parts[2], parts[3]);
      assert parts == [parts[0], parts[1], parts[2], parts[3]];
    }
    forall timestamp: string | NoColon(timestamp) &&
        token == TokenText(c.credentialsHash, IntText(c.version), timestamp,
                           c.mac(c.secret, Message(c.credentialsHash, IntText(c.version), timestamp)))
      ensures parts == [c.credentialsHash, IntText(c.version), timestamp,
                        c.mac(c.secret, Message(c.credentialsHash, IntText(c.version), timestamp))]
    {
      IntTextNoColon(c.version);
      FieldsRecovered(c.credentialsHash, IntText(c.version), timestamp,
                      c.mac(c.secret, Message(c.credentialsHash, IntText(c.version), timestamp)));
    }
  }
}
