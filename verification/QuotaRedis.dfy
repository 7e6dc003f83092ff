/** The Redis backend of the quota cache: the five dictionaries flattened into one store of texts
    under prefixed keys, and cleared by scanning for each prefix. */
module QuotaRedis {
  import opened Wrappers
  import opened DecimalText
  import opened QuotaCache

  type Store = map<string, string>

  datatype Kind = FeatureCost | Multiplier | Credits | RateLimit | DayLimit

  function Prefix(k: Kind): string {
    match k
    case FeatureCost => "quota:feature_cost:"
    case Multiplier => "quota:plan_multiplier:"
    case Credits => "quota:plan_credits:"
    case RateLimit => "quota:plan_rate_limit:"
    case DayLimit => "quota:plan_rate_day_limit:"
  }

  function FlatKey(k: Kind, id: string): string { Prefix(k) + id }

  // Limits are stored as integers, the rest as amounts.
  function Text(k: Kind, n: int): string {
    if k.RateLimit? || k.DayLimit? then IntText(n) else AmountText(n)
  }

  function Read(k: Kind, text: string): Option<int> {
    if k.RateLimit? || k.DayLimit? then ReadInt(text) else ReadAmount(text)
  }

  lemma TextRoundTrip(k: Kind, n: int)
    ensures Read(k, Text(k, n)) == Some(n)
    ensures Text(k, n) == match k
                          case RateLimit => IntText(n)
                          case DayLimit => IntText(n)
                          case _ => AmountText(n)
  {
    IntRoundTrip(n);
    AmountRoundTrip(n);
  }

  predicate HasPrefix(key: string, prefix: string) {
    |prefix| <= |key| && key[..|prefix|] == prefix
  }

  // A position at which the prefixes of two kinds differ.
  function Differ(j: Kind, k: Kind): nat {
    if j.FeatureCost? || k.FeatureCost? then 6
    else if (j.RateLimit? || j.DayLimit?) && (k.RateLimit? || k.DayLimit?) then 16
    else 11
  }

  lemma PrefixAt(key: string, prefix: string, p: nat)
    requires HasPrefix(key, prefix) && p < |prefix|
    ensures key[p] == prefix[p]
  {
    assert key[..|prefix|][p] == key[p];
  }

  lemma JoinedHasPrefix(prefix: string, id: string)
    ensures HasPrefix(prefix + id, prefix) && (prefix + id)[|prefix|..] == id
  {
  }

  /** No key of one kind can be read as a key of another, and ids are recovered from keys. */
  lemma PrefixesAreFree(j: Kind, k: Kind, id: string)
    ensures HasPrefix(FlatKey(j, id), Prefix(k)) <==> j == k
    ensures FlatKey(j, id)[|Prefix(j)|..] == id
    ensures Prefix(j) == match j
                         case FeatureCost => "quota:feature_cost:"
                         case Multiplier => "quota:plan_multiplier:"
                         case Credits => "quota:plan_credits:"
                         case RateLimit => "quota:plan_rate_limit:"
                         case DayLimit => "quota:plan_rate_day_limit:"
  {
    JoinedHasPrefix(Prefix(j), id);
    if j != k {
      PrefixAt(FlatKey(j, id), Prefix(j), Differ(j, k));
      if HasPrefix(FlatKey(j, id), Prefix(k)) {
        PrefixAt(FlatKey(j, id), Prefix(k), Differ(j, k));
        assert false;
      }
    }
  }

  lemma FlatKeyInjective(j: Kind, a: string, k: Kind, b: string)
    requires FlatKey(j, a) == FlatKey(k, b)
    ensures j == k && a == b
  {
    PrefixesAreFree(j, k, a);
    PrefixesAreFree(k, j, b);
    JoinedHasPrefix(Prefix(k), b);
  }

  // ---------- The two backends as one interface ----------

  function Entries(c: Cache, k: Kind): map<string, int> {
    match k
    case FeatureCost => c.featureCosts
    case Multiplier => c.multipliers
    case Credits => c.credits
    case RateLimit => c.rateLimits
    case DayLimit => c.dayLimits
  }

  function WithEntries(c: Cache, k: Kind, m: map<string, int>): Cache {
    match k
    case FeatureCost => c.(featureCosts := m)
    case Multiplier => c.(multipliers := m)
    case Credits => c.(credits := m)
    case RateLimit => c.(rateLimits := m)
    case DayLimit => c.(dayLimits := m)
  }

  datatype Op =
    | Set(kind: Kind, id: string, n: int)
    | Delete(kind: Kind, id: string)
    | Get(kind: Kind, id: string)
    | Clear

  function MemoryStep(c: Cache, op: Op): (Cache, Option<int>) {
    match op
    case Set(k, id, n) => (WithEntries(c, k, Entries(c, k)[id := n]), None)
    case Delete(k, id) => (WithEntries(c, k, Entries(c, k) - {id}), None)
    case Get(k, id) => (c, if id in Entries(c, k) then Some(Entries(c, k)[id]) else None)
    case Clear => (EMPTY, None)
  }

  predicate QuotaKey(key: string) {
    exists k: Kind :: HasPrefix(key, Prefix(k))
  }

  function Cleared(s: Store): Store {
    map key | key in s && !QuotaKey(key) :: s[key]
  }

  function RedisStep(s: Store, op: Op): (Store, Option<int>) {
    match op
    case Set(k, id, n) => (s[FlatKey(k, id) := Text(k, n)], None)
    case Delete(k, id) => (s - {FlatKey(k, id)}, None)
    case Get(k, id) => (s, if FlatKey(k, id) in s then Read(k, s[FlatKey(k, id)]) else None)
    case Clear => (Cleared(s), None)
  }

  /** The flat store holds exactly the entries of the five dictionaries, as text; whatever other
      keys it holds do not matter. */
  ghost predicate Refines(s: Store, c: Cache) {
    forall k: Kind, id :: EntryRefines(s, c, k, id)
  }

  ghost predicate EntryRefines(s: Store, c: Cache, k: Kind, id: string) {
    && (FlatKey(k, id) in s <==> id in Entries(c, k))
    && (id in Entries(c, k) ==> s[FlatKey(k, id)] == Text(k, Entries(c, k)[id]))
  }

  lemma EntriesOfWith(c: Cache, k: Kind, m: map<string, int>, j: Kind)
    ensures Entries(WithEntries(c, k, m), j) == if j == k then m else Entries(c, j)
  {
  }

  // A change of one flat key and of the entry it stands for.
  lemma ChangeRefines(s: Store, c: Cache, s': Store, m: map<string, int>, k0: Kind, id0: string, k: Kind, id: string)
    requires EntryRefines(s, c, k, id)
    requires forall key :: key != FlatKey(k0, id0) ==> (key in s' <==> key in s) && (key in s ==> s'[key] == s[key])
    requires forall i :: i != id0 ==> (i in m <==> i in Entries(c, k0)) && (i in m ==> m[i] == Entries(c, k0)[i])
    requires FlatKey(k0, id0) in s' <==> id0 in m
    requires id0 in m ==> s'[FlatKey(k0, id0)] == Text(k0, m[id0])
    ensures EntryRefines(s', WithEntries(c, k0, m), k, id)
  {
    EntriesOfWith(c, k0, m, k);
    if FlatKey(k, id) == FlatKey(k0, id0) {
      FlatKeyInjective(k, id, k0, id0);
    }
  }

  lemma ClearRefines(s: Store, k: Kind, id: string)
    ensures EntryRefines(Cleared(s), EMPTY, k, id)
  {
    PrefixesAreFree(k, k, id);
    assert QuotaKey(FlatKey(k, id));
  }

  lemma StepRefines(s: Store, c: Cache, op: Op)
    requires Refines(s, c)
    ensures RedisStep(s, op).1 == MemoryStep(c, op).1
    ensures Refines(RedisStep(s, op).0, MemoryStep(c, op).0)
  {
    if op.Get? {
      assert EntryRefines(s, c, op.kind, op.id);
      if op.id in Entries(c, op.kind) {
        TextRoundTrip(op.kind, Entries(c, op.kind)[op.id]);
      }
    } else {
      forall k: Kind, id
        ensures EntryRefines(RedisStep(s, op).0, MemoryStep(c, op).0, k, id)
      {
        assert EntryRefines(s, c, k, id);
        match op {
          case Set(k0, id0, n) =>
            ChangeRefines(s, c, s[FlatKey(k0, id0) := Text(k0, n)], Entries(c, k0)[id0 := n], k0, id0, k, id);
          case Delete(k0, id0) =>
            ChangeRefines(s, c, s - {FlatKey(k0, id0)}, Entries(c, k0) - {id0}, k0, id0, k, id);
          case Clear => ClearRefines(s, k, id);
        }
      }
    }
  }

  function MemoryRun(c: Cache, ops: seq<Op>): seq<Option<int>>
    decreases |ops|
  {
    if ops == [] then [] else [MemoryStep(c, ops[0]).1] + MemoryRun(MemoryStep(c, ops[0]).0, ops[1..])
  }

  function RedisRun(s: Store, ops: seq<Op>): seq<Option<int>>
    decreases |ops|
  {
    if ops == [] then [] else [RedisStep(s, ops[0]).1] + RedisRun(RedisStep(s, ops[0]).0, ops[1..])
  }

  /** Every sequence of sets, deletes, gets and clears gives the same answers on both backends. */
  lemma {:induction false} RunRefines(s: Store, c: Cache, ops: seq<Op>)
    requires Refines(s, c)
    ensures RedisRun(s, ops) == MemoryRun(c, ops)
    decreases |ops|
  {
    if ops != [] {
      StepRefines(s, c, ops[0]);
      RunRefines(RedisStep(s, ops[0]).0, MemoryStep(c, ops[0]).0, ops[1..]);
    }
  }

  // ---------- Clearing by scanning ----------

  /** What the server promises of the replies to one full scan: they hold only matching keys, and
      every key that was there from the start is in one of them (perhaps in several). */
  ghost predicate ScanCovers(keys: set<string>, prefix: string, replies: seq<seq<string>>) {
    && (forall i, j :: 0 <= i < |replies| && 0 <= j < |replies[i]| ==> HasPrefix(replies[i][j], prefix))
    && (forall key :: key in keys && HasPrefix(key, prefix) ==> exists i :: 0 <= i < |replies| && key in replies[i])
  }

  function Without(s: Store, prefix: string): Store {
    map key | key in s && !HasPrefix(key, prefix) :: s[key]
  }

  function Matching(s: Store, prefix: string): set<string> {
    set key | key in s && HasPrefix(key, prefix)
  }

  class RedisService {
    var store: Store

    constructor ()
      ensures store == map[]
    {
      store := map[];
    }

    // DEL of several keys: the number of those that existed.
    method DeleteKeys(keys: seq<string>) returns (deleted: nat)
      modifies this
      ensures store == old(store) - KeysOf(keys)
      ensures deleted == |old(store)| - |store|
    {
      var doomed := KeysOf(keys);
      var present := set key | key in store.Keys && key in doomed;
      assert store.Keys == (store - doomed).Keys + present;
      deleted := |present|;
      store := store - doomed;
    }

    // The loop of `delete_pattern`: the cursor comes back to 0 after the last reply.
    method ScanAndDelete(replies: seq<seq<string>>) returns (deleted: nat)
      requires replies != []
      modifies this
      ensures store == old(store) - Returned(replies)
      ensures deleted == |old(store)| - |store|
    {
      ghost var before := store;
      deleted := 0;
      var cursor := 0;
      while true
        invariant 0 <= cursor < |replies|
        invariant store == before - Returned(replies[..cursor])
        invariant deleted == |before| - |store|
        decreases |replies| - cursor
      {
        Scanned(before, replies, cursor);
        if replies[cursor] != [] {
          var n := DeleteKeys(replies[cursor]);
          deleted := deleted + n;
        }
        cursor := cursor + 1;
        if cursor == |replies| {
          break;
        }
      }
      assert replies[..|replies|] == replies;
    }

    /** `delete_pattern`: afterwards exactly the keys with the prefix are gone, and the result is
        their number. */
    method DeletePattern(prefix: string, replies: seq<seq<string>>) returns (deleted: nat)
      requires replies != [] && ScanCovers(store.Keys, prefix, replies)
      modifies this
      ensures store == Without(old(store), prefix)
      ensures deleted == |Matching(old(store), prefix)|
    {
      ScannedAll(store, prefix, replies);
      deleted := ScanAndDelete(replies);
    }

    /** `clear` of the Redis backend: every quota key is gone and every other key is untouched. */
    method ClearQuota(replies: map<Kind, seq<seq<string>>>)
      requires forall k: Kind :: k in replies && replies[k] != [] && ScanCovers(store.Keys, Prefix(k), replies[k])
      modifies this
      ensures store == Cleared(old(store))
    {
      var s0 := store;
      var n := DeletePattern(Prefix(FeatureCost), replies[FeatureCost]);
      var s1 := store;
      n := DeletePattern(Prefix(Multiplier), replies[Multiplier]);
      var s2 := store;
      n := DeletePattern(Prefix(Credits), replies[Credits]);
      var s3 := store;
      n := DeletePattern(Prefix(RateLimit), replies[RateLimit]);
      var s4 := store;
      n := DeletePattern(Prefix(DayLimit), replies[DayLimit]);
      ClearedInFive(s0, s1, s2, s3, s4, store);
    }
  }

  function KeysOf(keys: seq<string>): set<string> {
    set key | key in keys
  }

  // The keys the replies return.
  function Returned(replies: seq<seq<string>>): set<string> {
    if replies == [] then {}
    else Returned(replies[..|replies| - 1]) + KeysOf(replies[|replies| - 1])
  }

  lemma ReturnedNext(replies: seq<seq<string>>, i: nat)
    requires i < |replies|
    ensures Returned(replies[..i + 1]) == Returned(replies[..i]) + KeysOf(replies[i])
    ensures replies[i] == [] ==> Returned(replies[..i + 1]) == Returned(replies[..i])
  {
    assert replies[..i + 1][..i] == replies[..i];
  }

  // Deleting the keys of one more reply.
  lemma Scanned(s: Store, replies: seq<seq<string>>, i: nat)
    requires i < |replies|
    ensures var rest := s - Returned(replies[..i]);
            s - Returned(replies[..i + 1]) == if replies[i] == [] then rest else rest - KeysOf(replies[i])
  {
    ReturnedNext(replies, i);
  }

  lemma {:induction false} ReturnedKeys(replies: seq<seq<string>>, key: string)
    ensures key in Returned(replies) <==> exists i :: 0 <= i < |replies| && key in replies[i]
  {
    if replies != [] {
      var init := replies[..|replies| - 1];
      ReturnedKeys(init, key);
      if i :| 0 <= i < |replies| && key in replies[i] {
        assert i < |init| ==> init[i] == replies[i];
      }
    }
  }

  lemma ScannedAll(s: Store, prefix: string, replies: seq<seq<string>>)
    requires ScanCovers(s.Keys, prefix, replies)
    ensures s - Returned(replies) == Without(s, prefix)
    ensures |s| - |Without(s, prefix)| == |Matching(s, prefix)|
  {
    forall key | key in s
      ensures key in Returned(replies) <==> HasPrefix(key, prefix)
    {
      ReturnedKeys(replies, key);
    }
    assert s.Keys == Without(s, prefix).Keys + Matching(s, prefix);
  }

  lemma ClearedInFive(s0: Store, s1: Store, s2: Store, s3: Store, s4: Store, s5: Store)
    requires s1 == Without(s0, Prefix(FeatureCost)) && s2 == Without(s1, Prefix(Multiplier)) &&
        s3 == Without(s2, Prefix(Credits))
    requires s4 == Without(s3, Prefix(RateLimit)) && s5 == Without(s4, Prefix(DayLimit))
    ensures s5 == Cleared(s0)
  {
    forall key
      ensures key in s5 <==> key in s0 && !QuotaKey(key)
    {
      if k: Kind :| HasPrefix(key, Prefix(k)) {
        match k { case FeatureCost => case Multiplier => case Credits => case RateLimit => case DayLimit => }
      }
    }
  }
}
