/** Queue configurations: what the validator accepts, where a failed message is routed next, how
    many retries a queue grants, and the queues that are deployed. */
module Queues {
  import opened Wrappers

  datatype RetryQueue = RetryQueue(name: string, ttl: int)

  datatype QueueConfig = QueueConfig(
    name: string,
    retryQueue: Option<string>,
    retryQueues: Option<seq<RetryQueue>>,
    retryTtl: Option<int>,
    maxRetries: Option<int>,
    deadLetterQueue: Option<string>)

  // A set name, in the sense of Python's truth value of an optional string.
  predicate Named(name: Option<string>) {
    name.Some? && name.value != ""
  }

  predicate Listed(queues: Option<seq<RetryQueue>>) {
    queues.Some? && queues.value != []
  }

  /** The field constraints of the model and its validator. */
  predicate Accepted(c: QueueConfig) {
    && !(Named(c.retryQueue) && Listed(c.retryQueues))
    && (Named(c.retryQueue) ==> c.retryTtl.Some?)
    && (c.retryQueues.Some? ==> Listed(c.retryQueues))
    && (c.retryQueues.Some? ==> forall q :: q in c.retryQueues.value ==> 0 < q.ttl)
    && (c.retryTtl.Some? ==> 0 < c.retryTtl.value)
    && (c.maxRetries.Some? ==> 0 < c.maxRetries.value)
  }

  // The validator lets an empty name through, and a listed queue without a name is never used.
  predicate NamesSet(c: QueueConfig) {
    c.retryQueues.Some? ==> forall q :: q in c.retryQueues.value ==> q.name != ""
  }

  datatype Route = Retry(queue: string) | DeadLetter(queue: string) | Drop

  /** Where a message whose handler failed at this attempt count goes. */
  function RouteOf(c: QueueConfig, attempt: nat): Route {
    if Listed(c.retryQueues) && attempt < |c.retryQueues.value| && c.retryQueues.value[attempt].name != "" then
      Retry(c.retryQueues.value[attempt].name)
    else if !Listed(c.retryQueues) && Named(c.retryQueue)
      && (c.maxRetries.None? || c.maxRetries.value == 0 || attempt < c.maxRetries.value) then Retry(c.retryQueue.value)
    else if Named(c.deadLetterQueue) then DeadLetter(c.deadLetterQueue.value)
    else Drop
  }

  // A single retry queue without a maximum retries for ever.
  predicate Endless(c: QueueConfig) {
    !Listed(c.retryQueues) && Named(c.retryQueue) && (c.maxRetries.None? || c.maxRetries.value == 0)
  }

  // The number of retries granted by a configuration that is not endless.
  function Budget(c: QueueConfig): nat {
    if Listed(c.retryQueues) then |c.retryQueues.value|
    else if Named(c.retryQueue) && c.maxRetries.Some? && 0 < c.maxRetries.value then c.maxRetries.value
    else 0
  }

  // The queues a configuration declares.
  datatype Role = Main | Waiting(k: nat) | Dead

  predicate HasRole(c: QueueConfig, r: Role) {
    match r
    case Main => true
    case Waiting(k) => k < Waits(c)
    case Dead => Named(c.deadLetterQueue)
  }

  function Waits(c: QueueConfig): nat {
    if Listed(c.retryQueues) then |c.retryQueues.value| else if Named(c.retryQueue) then 1 else 0
  }

  function RoleName(c: QueueConfig, r: Role): string
    requires HasRole(c, r)
  {
    match r
    case Main => c.name
    case Waiting(k) => if Listed(c.retryQueues) then c.retryQueues.value[k].name else c.retryQueue.value
    case Dead => c.deadLetterQueue.value
  }

  // The retry queue a message waits in after its a-th failure, and for how long.
  function SlotOf(c: QueueConfig, attempt: nat): nat {
    if Listed(c.retryQueues) && 0 < attempt then attempt - 1 else 0
  }

  function SlotTtl(c: QueueConfig, k: nat): int {
    if Listed(c.retryQueues) then (if k < |c.retryQueues.value| then c.retryQueues.value[k].ttl else 0)
    else c.retryTtl.GetOr(0)
  }

  /** A failed message is retried exactly while its attempt count is below the budget (always, when
      the configuration is endless), in the retry queue of its next attempt; it is lost exactly
      when the budget is spent and there is no dead-letter queue. */
  lemma RouteByBudget(c: QueueConfig, attempt: nat)
    requires Accepted(c) && NamesSet(c)
    ensures RouteOf(c, attempt).Retry? <==> Endless(c) || attempt < Budget(c)
    ensures RouteOf(c, attempt).Retry? ==>
              && HasRole(c, Waiting(SlotOf(c, attempt + 1)))
              && RouteOf(c, attempt).queue == RoleName(c, Waiting(SlotOf(c, attempt + 1)))
    ensures RouteOf(c, attempt).Drop? <==> !Endless(c) && Budget(c) <= attempt && !Named(c.deadLetterQueue)
    ensures Endless(c) <==> Named(c.retryQueue) && c.maxRetries.None?
    ensures !Endless(c) ==>
              Budget(c) == if c.retryQueues.Some? then |c.retryQueues.value|
                           else if Named(c.retryQueue) then c.maxRetries.value else 0
  {
  }

  /** No two queues of the topology share a name. */
  ghost predicate Distinct(t: seq<QueueConfig>) {
    forall c, r, c', r' ::
      (0 <= c < |t| && 0 <= c' < |t| && HasRole(t[c], r) && HasRole(t[c'], r')
       && RoleName(t[c], r) == RoleName(t[c'], r')) ==> (c == c' && r == r')
  }

  // ---------- The naming convention of dead-letter queues ----------

  const DEAD_SUFFIX := "_dead"

  predicate HasDeadSuffix(name: string) {
    5 <= |name| && name[|name| - 5..] == DEAD_SUFFIX
  }

  function StripDeadSuffix(name: string): string
    requires HasDeadSuffix(name)
  {
    name[..|name| - 5]
  }

  lemma DeadSuffixUndoes(dead: string, name: string)
    ensures HasDeadSuffix(dead) && StripDeadSuffix(dead) == name <==> dead == name + DEAD_SUFFIX
  {
    if HasDeadSuffix(dead) && StripDeadSuffix(dead) == name {
      assert dead == dead[..|dead| - 5] + dead[|dead| - 5..];
    }
  }

  /** A topology whose runs conserve messages: accepted configurations with distinct names, each
      with a dead-letter queue named after the main queue. */
  ghost predicate WellFormed(t: seq<QueueConfig>) {
    && Distinct(t)
    && forall c :: 0 <= c < |t| ==>
         Accepted(t[c]) && NamesSet(t[c]) && t[c].name != "" && t[c].deadLetterQueue == Some(t[c].name + DEAD_SUFFIX)
  }

  // ---------- The deployed queues ----------

  function Deploy(name: string, ttl: int, retries: int): QueueConfig {
    QueueConfig(name, Some(name + "_retry"), None, Some(ttl), Some(retries), Some(name + DEAD_SUFFIX))
  }

  const DEPLOYED: seq<QueueConfig> := [
    Deploy("otp_emails", 30 * 1000, 3),
    Deploy("password_reset_confirmation_emails", 30 * 1000, 3),
    Deploy("subscription_activated_emails", 30 * 1000, 3),
    Deploy("subscription_canceled_emails", 30 * 1000, 3),
    Deploy("payment_failed_emails", 30 * 1000, 3),
    Deploy("workspace_invitation_emails", 30 * 1000, 3),
    Deploy("stripe_checkout_completed", 60 * 1000, 5),
    Deploy("stripe_subscription_updated", 60 * 1000, 5),
    Deploy("stripe_subscription_deleted", 60 * 1000, 5),
    Deploy("stripe_payment_failed", 60 * 1000, 3),
    Deploy("usage_commits", 30 * 1000, 3),
    Deploy("career_usage_commits", 30 * 1000, 3)
  ]

  // A main queue name that no "_retry" or "_dead" name can equal.
  predicate Plain(name: string) {
    6 <= |name| && name[|name| - 5] != '_' && name[|name| - 1] != 'y'
  }

  ghost predicate IsDeploy(c: QueueConfig) {
    exists ttl, retries :: 0 < ttl && 0 < retries && c == Deploy(c.name, ttl, retries)
  }

  ghost predicate ByConvention(t: seq<QueueConfig>) {
    && (forall c :: 0 <= c < |t| ==> Plain(t[c].name) && IsDeploy(t[c]))
    && (forall c, c' :: 0 <= c < c' < |t| ==> t[c].name != t[c'].name)
  }

  lemma ConventionIsDistinct(t: seq<QueueConfig>)
    requires ByConvention(t)
    ensures WellFormed(t)
  {
    forall c, r, c', r' |
      0 <= c < |t| && 0 <= c' < |t| && HasRole(t[c], r) && HasRole(t[c'], r')
      && RoleName(t[c], r) == RoleName(t[c'], r')
      ensures c == c' && r == r'
    {
      var m, n := t[c].name, t[c'].name;
      var x, y := RoleName(t[c], r), RoleName(t[c'], r');
      assert x[|x| - 1] == y[|y| - 1] && x[|x| - 5] == y[|y| - 5];
      assert r == r';
      assert m == x[..|m|] && n == y[..|n|];
    }
  }

  lemma DeployedNamesDiffer()
    ensures forall c, c' :: 0 <= c < c' < |DEPLOYED| ==> DEPLOYED[c].name != DEPLOYED[c'].name
  {
    assert DEPLOYED[7].name[20] != DEPLOYED[8].name[20];
    assert DEPLOYED[4].name[0] != DEPLOYED[9].name[0];
    assert DEPLOYED[5].name[0] != DEPLOYED[7].name[0];
    assert DEPLOYED[5].name[0] != DEPLOYED[8].name[0];
  }

  /** The deployed topology satisfies what the broker theorems ask of a topology. */
  lemma DeployedWellFormed()
    ensures WellFormed(DEPLOYED)
    ensures forall c :: 0 <= c < |DEPLOYED| ==> !Endless(DEPLOYED[c]) && Budget(DEPLOYED[c]) in {3, 5}
  {
    DeployedNamesDiffer();
    forall c | 0 <= c < |DEPLOYED|
      ensures Plain(DEPLOYED[c].name) && IsDeploy(DEPLOYED[c])
    {
      assert DEPLOYED[c] == Deploy(DEPLOYED[c].name, DEPLOYED[c].retryTtl.value, DEPLOYED[c].maxRetries.value);
    }
    ConventionIsDistinct(DEPLOYED);
  }
}
