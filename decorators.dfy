/**
 * Cross-cutting combinators: the `Singleton` metaclass, a get-or-create
 * table of one instance per class, and `retry_no_raise`, a bounded retry
 * whose final failure is logged and swallowed instead of raised.
 */
module Decorators {
  import opened Wrappers

  /** An object built by a singleton class's constructor, with the arguments it was built from. */
  class Instance {
    const cls: string
    const args: seq<string>

    constructor (cls: string, args: seq<string>)
      ensures this.cls == cls && this.args == args
    {
      this.cls := cls;
      this.args := args;
    }
  }

  /** The metaclass's shared `_instances` table, keyed by class. */
  class Singleton {
    var instances: map<string, Instance>

    ghost predicate Valid()
      reads this
    {
      forall c :: c in instances ==> instances[c].cls == c
    }

    constructor ()
      ensures Valid() && instances == map[]
    {
      instances := map[];
    }

    /**
     * `Singleton.__call__`: the first call for a class constructs and stores an
     * instance; every later call returns that stored instance and ignores its
     * arguments. Existing entries are never replaced.
     */
    method Call(cls: string, args: seq<string>) returns (instance: Instance)
      requires Valid()
      modifies this
      ensures Valid()
      ensures instance.cls == cls && cls in instances && instances[cls] == instance
      ensures cls in old(instances) ==> instance == old(instances)[cls] && instances == old(instances)
      ensures cls !in old(instances) ==>
        fresh(instance) && instance.args == args && instances == old(instances)[cls := instance]
      ensures forall c :: c in old(instances) ==> c in instances && instances[c] == old(instances)[c]
    {
      if cls !in instances {
        var created := new Instance(cls, args);
        instances := instances[cls := created];
      }
      instance := instances[cls];
    }
  }

  /** Two calls for the same class, whatever their arguments, yield the same object. */
  method SameInstanceForEveryCall(table: Singleton, cls: string, args1: seq<string>, args2: seq<string>)
    returns (first: Instance, second: Instance)
    requires table.Valid()
    modifies table
    ensures first == second
    ensures cls !in old(table.instances) ==> first.args == args1
  {
    first := table.Call(cls, args1);
    second := table.Call(cls, args2);
  }

  function Max(a: nat, b: nat): nat
  {
    if a < b then b else a
  }

  /**
   * How many times a function is attempted under `stop_max_attempt_number =
   * maxAttempts` when `succeeds(i)` tells whether attempt `i` returns rather
   * than raises: up to and including the first success, and never more than
   * `maxAttempts` (the first attempt is always made).
   */
  function AttemptsMade(succeeds: nat -> bool, maxAttempts: nat): (n: nat)
    ensures 1 <= n <= Max(1, maxAttempts)
    ensures forall i :: 0 <= i < n - 1 ==> !succeeds(i)
    ensures succeeds(n - 1) || n == Max(1, maxAttempts)
  {
    AttemptsFrom(succeeds, 0, Max(1, maxAttempts))
  }

  function AttemptsFrom(succeeds: nat -> bool, done: nat, limit: nat): (n: nat)
    requires done < limit
    requires forall i :: 0 <= i < done ==> !succeeds(i)
    ensures done < n <= limit
    ensures forall i :: 0 <= i < n - 1 ==> !succeeds(i)
    ensures succeeds(n - 1) || n == limit
    decreases limit - done
  {
    if succeeds(done) || done + 1 == limit then done + 1
    else AttemptsFrom(succeeds, done + 1, limit)
  }

  /** `AttemptsMade` is the unique count with the three properties above. */
  lemma AttemptsMadeIsUnique(succeeds: nat -> bool, maxAttempts: nat, n: nat)
    requires 1 <= n <= Max(1, maxAttempts)
    requires forall i :: 0 <= i < n - 1 ==> !succeeds(i)
    requires succeeds(n - 1) || n == Max(1, maxAttempts)
    ensures AttemptsMade(succeeds, maxAttempts) == n
  {
  }

  /**
   * A function wrapped by `retry_no_raise(stop_max_attempt_number = maxAttempts)`.
   * `attempt(i)` is the outcome of its `i`-th try: `Some(v)` when it returns
   * `v`, `None` when it raises. The wrapper returns the first successful
   * result; once the attempts are used up it returns `None` instead of raising.
   */
  method RetryNoRaise<T>(attempt: nat -> Option<T>, maxAttempts: nat)
    returns (result: Option<T>, attempts: nat)
    ensures attempts == AttemptsMade((i: nat) => attempt(i).Some?, maxAttempts)
    ensures result == attempt(attempts - 1)
    ensures result.None? <==> forall i :: 0 <= i < Max(1, maxAttempts) ==> attempt(i).None?
  {
    attempts := 0;
    result := None;
    var stop := false;
    while !stop
      invariant attempts <= Max(1, maxAttempts)
      invariant forall i :: 0 <= i < attempts - 1 ==> attempt(i).None?
      invariant !stop ==> forall i :: 0 <= i < attempts ==> attempt(i).None?
      invariant stop ==> attempts > 0 && result == attempt(attempts - 1)
      invariant stop ==> result.Some? || attempts == Max(1, maxAttempts)
      invariant !stop ==> attempts < Max(1, maxAttempts)
      decreases Max(1, maxAttempts) - attempts, !stop
    {
      result := attempt(attempts);
      attempts := attempts + 1;
      stop := result.Some? || attempts >= maxAttempts;
    }
    AttemptsMadeIsUnique((i: nat) => attempt(i).Some?, maxAttempts, attempts);
  }
}
