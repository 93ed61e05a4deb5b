/** What happens when a request with a key of a pool fails (agently/utils/ModelPool.py:312-354 and 397-472). */
module KeyFailover {
  import opened Chars
  import opened Residues

  datatype Entry = Entry(id: string, value: string)

  datatype Attempt = Attempt(keyId: string, action: string)

  /** The failover settings of a pool. `maxAttempts` is the setting when it is an integer. */
  datatype Policy = Policy(
    maxAttempts: Option<int>, strategy: string, retryStatusCodes: set<int>, allowStreamRetry: bool)

  /** What a handler answered, as read: an action, and an entry for some of them. */
  datatype Choice = Choice(action: string, entry: Option<Entry>)

  /** A provider error; `handler` is the answer of the pool's handler, if it has one. */
  datatype Failure = Failure(statusCode: Option<int>, streamStarted: bool, handler: Option<Choice>)

  datatype Decision = Retry(action: string, entry: Entry) | GiveUp(reason: string)

  function MaxAttempts(policy: Policy, keyCount: nat): (n: nat)
    ensures n >= 1
  {
    if policy.maxAttempts.Some? && policy.maxAttempts.value > 0 then policy.maxAttempts.value
    else if keyCount > 1 then keyCount else 1
  }

  function Normalized(action: string): string {
    if action == "retry_next" || action == "next" then "try_next"
    else if action == "raise_error" || action == "error" || action == "" then "raise"
    else action
  }

  /** The index of an id, or the number of entries. */
  function IndexOf(keys: seq<Entry>, id: string): (i: nat)
    ensures i <= |keys| && (i < |keys| ==> keys[i].id == id) && forall k :: 0 <= k < i ==> keys[k].id != id
  {
    if keys == [] then 0 else if keys[0].id == id then 0 else 1 + IndexOf(keys[1..], id)
  }

  function EntryOf(keys: seq<Entry>, id: string): Option<Entry> {
    var i := IndexOf(keys, id);
    if i < |keys| then Some(keys[i]) else None
  }

  /** How a policy's own strategy is read (lines 367-374). */
  function StrategyChoice(keys: seq<Entry>, strategy: string): Choice {
    if strategy in ["try_next", "retry_same", "raise", "stop"] then Choice(strategy, None)
    else if EntryOf(keys, strategy).Some? then Choice("retry_key", EntryOf(keys, strategy))
    else Choice("raise", None)
  }

  function AttemptedIds(attempts: seq<Attempt>): set<string> {
    set i | 0 <= i < |attempts| :: attempts[i].keyId
  }

  /** The first entry that has not been attempted. */
  function FirstFresh(entries: seq<Entry>, attempted: set<string>): Option<Entry> {
    if entries == [] then None
    else if entries[0].id !in attempted then Some(entries[0])
    else FirstFresh(entries[1..], attempted)
  }

  /** The entries from behind the selected one around to it. */
  function Ordered(keys: seq<Entry>, selected: string): seq<Entry> {
    var i := IndexOf(keys, selected);
    var start := if i < |keys| then i + 1 else 0;
    keys[start..] + keys[..start]
  }

  /** The part of a request's settings that failing over changes. */
  datatype Runtime = Runtime(selected: string, attempts: seq<Attempt>)

  function Answer(keys: seq<Entry>, policy: Policy, failure: Failure): Choice {
    match failure.handler
    case Some(choice) => choice
    case None =>
      if failure.statusCode.Some? && failure.statusCode.value in policy.retryStatusCodes then
        StrategyChoice(keys, Normalized(policy.strategy))
      else Choice("raise", None)
  }

  function Decide(keys: seq<Entry>, policy: Policy, r: Runtime, failure: Failure): Decision {
    if keys == [] then GiveUp("empty_api_key_pool")
    else if |r.attempts| >= MaxAttempts(policy, |keys|) then GiveUp("max_attempts_exhausted")
    else if failure.streamStarted && !policy.allowStreamRetry then GiveUp("stream_already_started")
    else
      var choice := Answer(keys, policy, failure);
      if choice.action == "raise" || choice.action == "stop" then GiveUp("handler_or_policy_raised")
      else
        var entry :=
          if choice.action == "try_next" then FirstFresh(Ordered(keys, r.selected), AttemptedIds(r.attempts))
          else if choice.action == "retry_same" then EntryOf(keys, r.selected)
          else choice.entry;
        if entry.None? then GiveUp("no_retry_key_available") else Retry(choice.action, entry.value)
  }

  function Next(r: Runtime, d: Decision): Runtime {
    match d
    case GiveUp(_) => r
    case Retry(action, entry) => Runtime(entry.id, r.attempts + [Attempt(entry.id, action)])
  }

  /** A run of failures, each handled in the settings the ones before left. */
  function Run(keys: seq<Entry>, policy: Policy, r: Runtime, failures: seq<Failure>): Runtime {
    if failures == [] then r
    else
      var before := Run(keys, policy, r, failures[..|failures| - 1]);
      Next(before, Decide(keys, policy, before, failures[|failures| - 1]))
  }

  /** The request-local settings of one request. */
  class FailoverState {
    const keys: seq<Entry>
    const policy: Policy
    var selected: string
    var attempts: seq<Attempt>
    var apiKey: string

    constructor (keys: seq<Entry>, policy: Policy, initial: Entry)
      ensures this.keys == keys && this.policy == policy && apiKey == initial.value
      ensures State() == Initial(initial)
    {
      this.keys, this.policy := keys, policy;
      selected, attempts, apiKey := initial.id, [Attempt(initial.id, "initial")], initial.value;
    }

    ghost function State(): Runtime
      reads this
    {
      Runtime(selected, attempts)
    }

    method NextKeyEntry() returns (entry: Option<Entry>)
      ensures entry == FirstFresh(Ordered(keys, selected), AttemptedIds(attempts))
    {
      var start := 0;
      var index := 0;
      while index < |keys|
        invariant index <= |keys| && start == 0 && index <= IndexOf(keys, selected)
      {
        if keys[index].id == selected {
          start := index + 1;
          break;
        }
        index := index + 1;
      }
      var ordered := keys[start..] + keys[..start];
      assert ordered[0..] == ordered == Ordered(keys, selected);
      for i := 0 to |ordered|
        invariant FirstFresh(ordered, AttemptedIds(attempts)) == FirstFresh(ordered[i..], AttemptedIds(attempts))
      {
        if ordered[i].id !in AttemptedIds(attempts) { return Some(ordered[i]); }
        assert ordered[i..][1..] == ordered[i + 1..];
      }
      return None;
    }

    method ResolveFailover(failure: Failure) returns (d: Decision)
      modifies this
      ensures d == Decide(keys, policy, old(State()), failure) && State() == Next(old(State()), d)
      ensures apiKey == if d.Retry? then d.entry.value else old(apiKey)
    {
      if keys == [] { return GiveUp("empty_api_key_pool"); }
      if |attempts| >= MaxAttempts(policy, |keys|) { return GiveUp("max_attempts_exhausted"); }
      if failure.streamStarted && !policy.allowStreamRetry { return GiveUp("stream_already_started"); }
      var choice := Answer(keys, policy, failure);
      var action, entry := choice.action, choice.entry;
      if action == "raise" || action == "stop" { return GiveUp("handler_or_policy_raised"); }
      if action == "try_next" {
        entry := NextKeyEntry();
      } else if action == "retry_same" {
        entry := EntryOf(keys, selected);
      }
      if entry == None { return GiveUp("no_retry_key_available"); }
      selected := entry.value.id;
      attempts := attempts + [Attempt(entry.value.id, action)];
      apiKey := entry.value.value;
      return Retry(action, entry.value);
    }
  }

  function Initial(entry: Entry): Runtime { Runtime(entry.id, [Attempt(entry.id, "initial")]) }

  /** The number of attempts a policy allows: its positive setting, or else one for each key, and one at least. */
  ghost predicate Limit(policy: Policy, keyCount: nat, n: nat) {
    if policy.maxAttempts.Some? && policy.maxAttempts.value >= 1 then policy.maxAttempts == Some(n)
    else n >= 1 && n >= keyCount && (n == 1 || n == keyCount)
  }

  lemma LimitIs(policy: Policy, keyCount: nat, n: nat)
    ensures Limit(policy, keyCount, n) <==> n == MaxAttempts(policy, keyCount)
  {
  }

  /** Whatever the handlers answer, a request never makes more attempts than its limit. */
  lemma {:induction false} NeverTooManyAttempts(keys: seq<Entry>, policy: Policy, initial: Entry,
                                                failures: seq<Failure>, limit: nat)
    requires Limit(policy, |keys|, limit)
    ensures |Run(keys, policy, Initial(initial), failures).attempts| <= limit
    decreases |failures|
  {
    LimitIs(policy, |keys|, limit);
    if failures != [] { NeverTooManyAttempts(keys, policy, initial, failures[..|failures| - 1], limit); }
  }

  /** The names a policy may give its strategies. */
  const NEXT_NAMES := ["try_next", "retry_next", "next"]
  const RAISE_NAMES := ["raise", "raise_error", "error", "", "stop"]

  /** The error's status code is one of those the policy retries. */
  predicate Retryable(policy: Policy, failure: Failure) {
    failure.statusCode != None && failure.statusCode.value in policy.retryStatusCodes
  }

  /**
    The failure is one the request may retry with the next key: the pool's handler says so, or there is none and
    the policy's strategy does for this status code; and output that has started does not stand in the way.
   */
  predicate TriesNext(policy: Policy, failure: Failure) {
    && (match failure.handler
        case Some(choice) => choice.action == "try_next"
        case None => Retryable(policy, failure) && policy.strategy in NEXT_NAMES)
    && (failure.streamStarted ==> policy.allowStreamRetry)
  }

  lemma AnswerIsNext(keys: seq<Entry>, policy: Policy, failure: Failure)
    requires TriesNext(policy, failure)
    ensures Answer(keys, policy, failure).action == "try_next"
  {
  }

  /** Neither the limit nor output that has started stands in the way of a retry. */
  ghost predicate MayRetry(keys: seq<Entry>, policy: Policy, r: Runtime, failure: Failure) {
    && keys != [] && (failure.streamStarted ==> policy.allowStreamRetry)
    && forall limit :: Limit(policy, |keys|, limit) ==> |r.attempts| < limit
  }

  /** What stands in the way, in the order it is looked at. */
  lemma NoRetry(keys: seq<Entry>, policy: Policy, r: Runtime, failure: Failure, limit: nat)
    requires Limit(policy, |keys|, limit)
    ensures keys == [] ==> Decide(keys, policy, r, failure) == GiveUp("empty_api_key_pool")
    ensures keys != [] && |r.attempts| >= limit ==>
      Decide(keys, policy, r, failure) == GiveUp("max_attempts_exhausted")
    ensures keys != [] && |r.attempts| < limit && failure.streamStarted && !policy.allowStreamRetry ==>
      Decide(keys, policy, r, failure) == GiveUp("stream_already_started")
    ensures MayRetry(keys, policy, r, failure) <==>
      keys != [] && |r.attempts| < limit && (failure.streamStarted ==> policy.allowStreamRetry)
  {
    LimitIs(policy, |keys|, limit);
    forall n: nat | Limit(policy, |keys|, n) ensures n == limit { LimitIs(policy, |keys|, n); }
    hide Answer, MaxAttempts, Limit;
  }

  /** The keys behind the selected one, around the pool, up to the first that was not attempted. */
  ghost predicate FirstBehind(keys: seq<Entry>, r: Runtime, entry: Entry) {
    exists k :: 0 <= k < |Ordered(keys, r.selected)| && Ordered(keys, r.selected)[k] == entry
      && (forall a :: a in r.attempts ==> a.keyId != entry.id)
      && forall j :: 0 <= j < k ==> exists a :: a in r.attempts && a.keyId == Ordered(keys, r.selected)[j].id
  }

  /** What a policy without a handler decides. */
  lemma PolicyDecides(keys: seq<Entry>, policy: Policy, r: Runtime, failure: Failure)
    requires MayRetry(keys, policy, r, failure) && failure.handler.None?
    ensures var d := Decide(keys, policy, r, failure);
      && (!Retryable(policy, failure) || policy.strategy in RAISE_NAMES ==> d == GiveUp("handler_or_policy_raised"))
      && (Retryable(policy, failure) && policy.strategy in NEXT_NAMES ==>
            if d.Retry? then d.action == "try_next" && FirstBehind(keys, r, d.entry)
            else d == GiveUp("no_retry_key_available") && AllTried(keys, r))
      && (Retryable(policy, failure) && policy.strategy == "retry_same" ==>
            if d.Retry? then d.action == "retry_same" && d.entry in keys && d.entry.id == r.selected
            else d == GiveUp("no_retry_key_available") && forall e :: e in keys ==> e.id != r.selected)
      && (Retryable(policy, failure) && policy.strategy !in NEXT_NAMES + RAISE_NAMES + ["retry_same"] ==>
            if d.Retry? then d.action == "retry_key" && d.entry in keys && d.entry.id == policy.strategy
            else d == GiveUp("handler_or_policy_raised") && forall e :: e in keys ==> e.id != policy.strategy)
  {
    LimitIs(policy, |keys|, MaxAttempts(policy, |keys|));
    NoRetry(keys, policy, r, failure, MaxAttempts(policy, |keys|));
    PolicyAnswers(keys, policy, failure);
    NextIsBehind(keys, r);
    hide FirstFresh, Ordered, MaxAttempts, Limit, MayRetry, AttemptedIds, FirstBehind, AllTried, Answer, Retryable,
      NEXT_NAMES, RAISE_NAMES;
  }

  lemma PolicyAnswers(keys: seq<Entry>, policy: Policy, failure: Failure)
    requires failure.handler.None?
    ensures var choice, known := Answer(keys, policy, failure), EntryOf(keys, policy.strategy);
      && (!Retryable(policy, failure) || policy.strategy in RAISE_NAMES ==> choice.action in ["raise", "stop"])
      && (Retryable(policy, failure) && policy.strategy in NEXT_NAMES ==> choice.action == "try_next")
      && (Retryable(policy, failure) && policy.strategy == "retry_same" ==> choice.action == "retry_same")
      && (Retryable(policy, failure) && policy.strategy !in NEXT_NAMES + RAISE_NAMES + ["retry_same"] ==>
            choice == if known.Some? then Choice("retry_key", known) else Choice("raise", None))
  {
    StrategyNames(policy.strategy);
    hide Normalized, EntryOf;
  }

  /** Every key of the pool has been attempted. */
  ghost predicate AllTried(keys: seq<Entry>, r: Runtime) {
    forall e :: e in keys ==> exists a :: a in r.attempts && a.keyId == e.id
  }

  lemma StrategyNames(strategy: string)
    ensures strategy in NEXT_NAMES <==> Normalized(strategy) == "try_next"
    ensures strategy in RAISE_NAMES <==> Normalized(strategy) == "raise" || Normalized(strategy) == "stop"
    ensures strategy !in NEXT_NAMES + RAISE_NAMES ==> Normalized(strategy) == strategy
  {
  }

  lemma NextIsBehind(keys: seq<Entry>, r: Runtime)
    ensures var found := FirstFresh(Ordered(keys, r.selected), AttemptedIds(r.attempts));
      if found.Some? then FirstBehind(keys, r, found.value)
      else AllTried(keys, r)
  {
    var ordered, ids := Ordered(keys, r.selected), AttemptedIds(r.attempts);
    forall id ensures id in ids <==> exists a :: a in r.attempts && a.keyId == id {
      if a :| a in r.attempts && a.keyId == id {
        var i :| 0 <= i < |r.attempts| && r.attempts[i] == a;
      }
    }
    FreshIsFirst(ordered, ids);
    assert forall e :: e in keys ==> e in ordered;
  }

  lemma {:induction false} FreshIsFirst(entries: seq<Entry>, attempted: set<string>)
    ensures var found := FirstFresh(entries, attempted);
      if found.Some? then
        && found.value.id !in attempted
        && exists k ::
             && 0 <= k < |entries| && entries[k] == found.value
             && forall j :: 0 <= j < k ==> entries[j].id in attempted
      else forall e :: e in entries ==> e.id in attempted
  {
    if entries != [] && entries[0].id in attempted {
      FreshIsFirst(entries[1..], attempted);
      var found := FirstFresh(entries[1..], attempted);
      if found.Some? {
        var k :| 0 <= k < |entries[1..]| && entries[1..][k] == found.value
          && forall j :: 0 <= j < k ==> entries[1..][j].id in attempted;
        assert entries[k + 1] == found.value;
        forall j | 0 <= j < k + 1 ensures entries[j].id in attempted {
          if j > 0 { assert entries[j] == entries[1..][j - 1]; }
        }
      }
    }
  }

  predicate NoRepeats(attempts: seq<Attempt>) {
    forall i, j :: 0 <= i < j < |attempts| ==> attempts[i].keyId != attempts[j].keyId
  }

  lemma {:induction false} FreshIsFresh(entries: seq<Entry>, attempted: set<string>)
    ensures FirstFresh(entries, attempted).Some? ==>
      FirstFresh(entries, attempted).value in entries && FirstFresh(entries, attempted).value.id !in attempted
    ensures FirstFresh(entries, attempted).None? ==> forall e :: e in entries ==> e.id in attempted
  {
    if entries != [] { FreshIsFresh(entries[1..], attempted); }
  }

  /** While every answer is to try the next key, no key id is attempted twice, whatever the pool holds. */
  lemma {:induction false} NoKeyTwice(keys: seq<Entry>, policy: Policy, initial: Entry, failures: seq<Failure>)
    requires forall f :: f in failures ==> TriesNext(policy, f)
    ensures NoRepeats(Run(keys, policy, Initial(initial), failures).attempts)
    decreases |failures|
  {
    if failures != [] {
      var rest, f := failures[..|failures| - 1], failures[|failures| - 1];
      NoKeyTwice(keys, policy, initial, rest);
      var r := Run(keys, policy, Initial(initial), rest);
      FreshIsFresh(Ordered(keys, r.selected), AttemptedIds(r.attempts));
      assert TriesNext(policy, f);
      AnswerIsNext(keys, policy, f);
      hide Answer, Ordered, FirstFresh, Run;
    }
  }

  predicate DistinctIds(keys: seq<Entry>) { forall i, j :: 0 <= i < j < |keys| ==> keys[i].id != keys[j].id }

  /** The attempts are `m` keys in cyclic order from index `s` on, and the last of them is selected. */
  ghost predicate Cyclic(keys: seq<Entry>, s: nat, m: nat, r: Runtime)
    requires keys != []
  {
    && 1 <= m == |r.attempts| <= |keys|
    && (forall k :: 0 <= k < m ==> r.attempts[k].keyId == keys[(s + k) % |keys|].id)
    && r.selected == r.attempts[m - 1].keyId
  }

  /** The key behind the last of `m` keys in cyclic order comes first, and is fresh as long as `m` is not all. */
  lemma CyclicNext(keys: seq<Entry>, s: nat, m: nat, r: Runtime)
    requires keys != [] && DistinctIds(keys) && Cyclic(keys, s, m, r)
    ensures FirstFresh(Ordered(keys, r.selected), AttemptedIds(r.attempts))
         == if m < |keys| then Some(keys[(s + m) % |keys|]) else None
  {
    var n := |keys|;
    var last := (s + m - 1) % n;
    assert r.attempts[m - 1].keyId == keys[(s + (m - 1)) % n].id;
    assert IndexOf(keys, r.selected) == last;
    var ordered := Ordered(keys, r.selected);
    NextResidue(s + m - 1, n);
    assert ordered[0] == keys[(s + m) % n];
    FreshIsFresh(ordered, AttemptedIds(r.attempts));
    if m < n {
      forall k | 0 <= k < m ensures r.attempts[k].keyId != ordered[0].id {
        SameResidue(s, k, m, n);
      }
    } else {
      AllAttempted(keys, s, r);
    }
  }

  lemma AllAttempted(keys: seq<Entry>, s: nat, r: Runtime)
    requires keys != [] && Cyclic(keys, s, |keys|, r)
    ensures FirstFresh(Ordered(keys, r.selected), AttemptedIds(r.attempts)) == None
  {
    var n := |keys|;
    forall i | 0 <= i < n ensures keys[i].id in AttemptedIds(r.attempts) {
      var k := Reaches(s, i, n);
      assert r.attempts[k].keyId == keys[(s + k) % n].id;
    }
    var ordered := Ordered(keys, r.selected);
    FreshIsFresh(ordered, AttemptedIds(r.attempts));
    forall e | e in ordered ensures e.id in AttemptedIds(r.attempts) {
      assert e in keys;
    }
  }

  function Least(a: nat, b: nat): nat { if a <= b then a else b }

  /**
    Failing over to the next key visits the keys of a pool in cyclic order from the first one used, each once,
    and makes exactly `min(limit, keys)` attempts once enough requests have failed.
   */
  lemma {:induction false} VisitsInCyclicOrder(keys: seq<Entry>, policy: Policy, s: nat, failures: seq<Failure>,
                                               allowed: nat)
    requires DistinctIds(keys) && s < |keys| && forall f :: f in failures ==> TriesNext(policy, f)
    requires Limit(policy, |keys|, allowed)
    ensures Cyclic(keys, s, Least(|failures| + 1, Least(allowed, |keys|)),
                   Run(keys, policy, Initial(keys[s]), failures))
    decreases |failures|
  {
    hide *;
    LimitIs(policy, |keys|, allowed);
    LeastMeans(allowed, |keys|);
    var limit := Least(allowed, |keys|);
    LeastMeans(|failures| + 1, limit);
    LeastMeans(|failures|, limit);
    RunLast(keys, policy, Initial(keys[s]), failures);
    if failures == [] {
      StartsAt(keys, s);
    } else {
      var rest, f := failures[..|failures| - 1], failures[|failures| - 1];
      assert forall g :: g in rest ==> g in failures;
      VisitsInCyclicOrder(keys, policy, s, rest, allowed);
      var r := Run(keys, policy, Initial(keys[s]), rest);
      CyclicStep(keys, policy, s, Least(|failures|, limit), r, f);
    }
  }

  lemma LeastMeans(a: nat, b: nat)
    ensures Least(a, b) == if a <= b then a else b
  {
  }

  lemma RunLast(keys: seq<Entry>, policy: Policy, r: Runtime, failures: seq<Failure>)
    ensures Run(keys, policy, r, failures) == if failures == [] then r
      else var before := Run(keys, policy, r, failures[..|failures| - 1]);
           Next(before, Decide(keys, policy, before, failures[|failures| - 1]))
  {
  }

  /** One failure further around, unless the limit or the last key is reached. */
  lemma CyclicStep(keys: seq<Entry>, policy: Policy, s: nat, m: nat, r: Runtime, f: Failure)
    requires DistinctIds(keys) && s < |keys| && Cyclic(keys, s, m, r) && TriesNext(policy, f)
    ensures Cyclic(keys, s, if m < MaxAttempts(policy, |keys|) && m < |keys| then m + 1 else m,
                   Next(r, Decide(keys, policy, r, f)))
  {
    hide Answer, MaxAttempts, Ordered, FirstFresh, AttemptedIds, DistinctIds;
    AnswerIsNext(keys, policy, f);
    CyclicNext(keys, s, m, r);
  }

  lemma StartsAt(keys: seq<Entry>, s: nat)
    requires s < |keys|
    ensures Cyclic(keys, s, 1, Initial(keys[s]))
  {
    assert (s + 0) % |keys| == s;
  }
}
