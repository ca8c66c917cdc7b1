/**
 * The "always" approver: it approves, without further validation, every
 * certificate signing request (CSR) that a kubelet submits while TLS
 * bootstrapping, and persists the approval with a retry on conflicting writes.
 *
 * The store client is a scripted stand-in: it answers each update and each
 * fetch with the next answer of a finite script, and records what it was
 * asked. The unbounded retry loop of the controller terminates here because
 * every retry consumes one scripted update answer; an exhausted script answers
 * with an error that is not a conflict.
 */
module Always {
  import opened Wrappers
  import opened Strings

  const KubeletBootstrapUsername: string := "kubelet-bootstrap"
  const KubeletBootstrapGroup: string := "system:kubelet-bootstrap"

  /** The text by which an update error is recognised as a conflicting concurrent write. */
  const ConflictText: string := "the object has been modified"

  datatype ConditionType = Approved | Denied

  /** A decision recorded on a CSR. */
  datatype Condition = Condition(kind: ConditionType, reason: string, message: string)

  /** The one condition this approver ever writes. */
  const AutoApproval: Condition :=
    Condition(Approved, "AutoApproved", "Auto approving of all kubelet CSRs is enabled on bootkube")

  /** A store error, known only by its text. */
  datatype Error = Error(text: string)

  /** What the scripted client answers once its script is used up. */
  const ScriptExhausted: Error := Error("script exhausted")

  /** The parts of a CSR this approver reads or writes, as a value. */
  datatype Csr = Csr(name: string, username: string, groups: seq<string>, conditions: seq<Condition>)

  /** An update error is a conflict when its text contains the conflict text. */
  predicate IsConflict(e: Error) {
    Contains(e.text, ConflictText)
  }

  /** No decision yet, submitted by the bootstrap user, and a member of the bootstrap group (all exact matches). */
  predicate Eligible(c: Csr) {
    |c.conditions| == 0 && c.username == KubeletBootstrapUsername && KubeletBootstrapGroup in c.groups
  }

  /** The CSR with the auto-approval appended. */
  function WithApproval(c: Csr): Csr {
    c.(conditions := c.conditions + [AutoApproval])
  }

  /** A CSR object held by reference, whose conditions the approver appends to in place. */
  class Request {
    const name: string
    const username: string
    const groups: seq<string>
    var conditions: seq<Condition>

    constructor (c: Csr)
      ensures Value() == c
    {
      name, username, groups, conditions := c.name, c.username, c.groups, c.conditions;
    }

    function Value(): Csr
      reads this
    {
      Csr(name, username, groups, conditions)
    }
  }

  /**
   * The store client. `updates` and `fetches` are the answers still to give
   * (an update answer is `None` for success or `Some(error)`); `submitted` and
   * `fetchedNames` record every object sent for update and every name fetched.
   */
  class Client {
    var updates: seq<Option<Error>>
    var fetches: seq<Result<Csr, Error>>
    var submitted: seq<Csr>
    var fetchedNames: seq<string>

    constructor (updates: seq<Option<Error>>, fetches: seq<Result<Csr, Error>>)
      ensures this.updates == updates && this.fetches == fetches
      ensures submitted == [] && fetchedNames == []
    {
      this.updates, this.fetches := updates, fetches;
      submitted, fetchedNames := [], [];
    }

    /** Sends the request's current state for update and answers with the next scripted answer. */
    method UpdateApproval(r: Request) returns (err: Option<Error>)
      modifies this`updates, this`submitted
      ensures submitted == old(submitted) + [r.Value()]
      ensures err == NextUpdate(old(updates)) && updates == Rest(old(updates))
    {
      submitted := submitted + [r.Value()];
      err := NextUpdate(updates);
      updates := Rest(updates);
    }

    /** Fetches the object called `name`: a fresh request holding the next scripted object, or the scripted error. */
    method Get(name: string) returns (r: Request?, err: Option<Error>)
      modifies this`fetches, this`fetchedNames
      ensures fetchedNames == old(fetchedNames) + [name]
      ensures fetches == Rest(old(fetches))
      ensures var answer := NextFetch(old(fetches));
        && (answer.Failure? ==> err == Some(answer.error) && r == null)
        && (answer.Success? ==> err == None && r != null && fresh(r) && r.Value() == answer.value)
    {
      fetchedNames := fetchedNames + [name];
      var answer := NextFetch(fetches);
      fetches := Rest(fetches);
      if answer.Failure? {
        r, err := null, Some(answer.error);
      } else {
        r := new Request(answer.value);
        err := None;
      }
    }
  }

  /** What one `Approve` call returns and what it asked of the store, with the script it left. */
  datatype Outcome = Outcome(
    err: Option<Error>,
    submitted: seq<Csr>,
    fetchedNames: seq<string>,
    updatesLeft: seq<Option<Error>>,
    fetchesLeft: seq<Result<Csr, Error>>)

  /**
   * The approval protocol as a function of the request and the store's
   * answers: abstain unless eligible; otherwise submit the request with the
   * approval appended; on a conflict re-fetch by name and start over on the
   * fetched object; any other error, and a failed fetch, is returned.
   */
  function Run(c: Csr, updates: seq<Option<Error>>, fetches: seq<Result<Csr, Error>>): Outcome
    decreases |updates|
  {
    if !Eligible(c) then Outcome(None, [], [], updates, fetches)
    else
      var answer, rest := NextUpdate(updates), Rest(updates);
      if answer.None? || !IsConflict(answer.value) then Outcome(answer, [WithApproval(c)], [], rest, fetches)
      else
        var fetched, fetchesRest := NextFetch(fetches), Rest(fetches);
        if fetched.Failure? then Outcome(Some(fetched.error), [WithApproval(c)], [c.name], rest, fetchesRest)
        else
          ScriptExhaustedIsNotConflict();
          Preceded([WithApproval(c)], [c.name], Run(fetched.value, rest, fetchesRest))
  }

  /** The answer the scripted client gives to the next update. */
  function NextUpdate(updates: seq<Option<Error>>): Option<Error> {
    if updates == [] then Some(ScriptExhausted) else updates[0]
  }

  /** The answer the scripted client gives to the next fetch. */
  function NextFetch(fetches: seq<Result<Csr, Error>>): Result<Csr, Error> {
    if fetches == [] then Failure(ScriptExhausted) else fetches[0]
  }

  /** A script once its next answer is given. */
  function Rest<T>(script: seq<T>): seq<T> {
    if script == [] then [] else script[1..]
  }

  /** An outcome with earlier submissions and fetches put in front of its own. */
  function Preceded(sent: seq<Csr>, names: seq<string>, o: Outcome): Outcome {
    o.(submitted := sent + o.submitted, fetchedNames := names + o.fetchedNames)
  }

  lemma PrecededTwice(sent: seq<Csr>, names: seq<string>, sent': seq<Csr>, names': seq<string>, o: Outcome)
    ensures Preceded(sent, names, Preceded(sent', names', o)) == Preceded(sent + sent', names + names', o)
  {
    assert sent + (sent' + o.submitted) == (sent + sent') + o.submitted;
    assert names + (names' + o.fetchedNames) == (names + names') + o.fetchedNames;
  }

  /** The exhausted-script error is not mistaken for a conflict. */
  lemma ScriptExhaustedIsNotConflict()
    ensures !IsConflict(ScriptExhausted)
  {
    assert |ScriptExhausted.text| < |ConflictText|;
  }

  /** One attempt of `Run` that ends without a retry: abstention, success, or an update error that is not a conflict. */
  lemma RunWithoutRetry(c: Csr, updates: seq<Option<Error>>, fetches: seq<Result<Csr, Error>>)
    requires Eligible(c) ==> NextUpdate(updates).None? || !IsConflict(NextUpdate(updates).value)
    ensures !Eligible(c) ==> Run(c, updates, fetches) == Outcome(None, [], [], updates, fetches)
    ensures Eligible(c) ==>
      Run(c, updates, fetches) == Outcome(NextUpdate(updates), [WithApproval(c)], [], Rest(updates), fetches)
  {
  }

  /** One attempt of `Run` that meets a conflict: the re-fetch fails, or `Run` starts over on the fetched object. */
  lemma RunAfterConflict(c: Csr, updates: seq<Option<Error>>, fetches: seq<Result<Csr, Error>>)
    requires Eligible(c) && NextUpdate(updates).Some? && IsConflict(NextUpdate(updates).value)
    ensures NextFetch(fetches).Failure? ==>
      Run(c, updates, fetches)
        == Outcome(Some(NextFetch(fetches).error), [WithApproval(c)], [c.name], Rest(updates), Rest(fetches))
    ensures NextFetch(fetches).Success? ==>
      Run(c, updates, fetches)
        == Preceded([WithApproval(c)], [c.name], Run(NextFetch(fetches).value, Rest(updates), Rest(fetches)))
  {
  }

  /**
   * Every object sent to the store carries exactly one condition, the
   * auto-approval (so nothing is ever denied, and one condition is appended per
   * attempt), and was submitted by the bootstrap user in the bootstrap group.
   */
  lemma {:induction false} RunSubmitsOnlyApprovals(c: Csr, updates: seq<Option<Error>>, fetches: seq<Result<Csr, Error>>)
    ensures forall s :: s in Run(c, updates, fetches).submitted ==>
      s.conditions == [AutoApproval] && s.username == KubeletBootstrapUsername && KubeletBootstrapGroup in s.groups
    decreases |updates|
  {
    if Eligible(c) && NextUpdate(updates).Some? && IsConflict(NextUpdate(updates).value) && NextFetch(fetches).Success? {
      ScriptExhaustedIsNotConflict();
      var next := NextFetch(fetches).value;
      RunSubmitsOnlyApprovals(next, Rest(updates), Rest(fetches));
      var o, o' := Run(c, updates, fetches), Run(next, Rest(updates), Rest(fetches));
      assert o == Preceded([WithApproval(c)], [c.name], o');
      assert c.conditions == [];
    } else if Eligible(c) {
      assert c.conditions == [];
      assert Run(c, updates, fetches).submitted == [WithApproval(c)];
    }
  }

  /**
   * How many store calls a run makes: nothing is sent exactly when the
   * request is not eligible; each re-fetch follows a submission and asks for
   * the name of the object just submitted; an error after the last update is
   * not a conflict, and a success after it means that update succeeded.
   */
  lemma {:induction false} RunStoreCalls(c: Csr, updates: seq<Option<Error>>, fetches: seq<Result<Csr, Error>>)
    ensures var o := Run(c, updates, fetches);
      && (o.submitted == [] <==> !Eligible(c))
      && |o.fetchedNames| <= |o.submitted| <= |o.fetchedNames| + 1
      && (forall k :: 0 <= k < |o.fetchedNames| ==> o.fetchedNames[k] == o.submitted[k].name)
      && (o.err.Some? && |o.submitted| == |o.fetchedNames| + 1 ==> !IsConflict(o.err.value))
      && (o.err.None? && o.submitted != [] && |o.submitted| == |o.fetchedNames| + 1 ==>
            |o.submitted| <= |updates| && updates[|o.submitted| - 1] == None)
    decreases |updates|
  {
    ScriptExhaustedIsNotConflict();
    if Eligible(c) && NextUpdate(updates).Some? && IsConflict(NextUpdate(updates).value) && NextFetch(fetches).Success? {
      var next, rest, fetchesRest := NextFetch(fetches).value, Rest(updates), Rest(fetches);
      RunStoreCalls(next, rest, fetchesRest);
      var o, o' := Run(c, updates, fetches), Run(next, rest, fetchesRest);
      assert o == Preceded([WithApproval(c)], [c.name], o');
      assert updates != [] && rest == updates[1..];
      assert forall k :: 1 <= k < |o.fetchedNames| ==> o.fetchedNames[k] == o'.fetchedNames[k - 1];
      assert forall k :: 1 <= k < |o.submitted| ==> o.submitted[k] == o'.submitted[k - 1];
      if o.err.None? && o'.submitted != [] && |o'.submitted| == |o'.fetchedNames| + 1 {
        assert updates[|o.submitted| - 1] == rest[|o'.submitted| - 1];
      }
    }
  }

  /** The first `n` scripted update answers are all conflicts. */
  predicate ConflictsFirst(updates: seq<Option<Error>>, n: nat) {
    n <= |updates| && forall k :: 0 <= k < n ==> updates[k].Some? && IsConflict(updates[k].value)
  }

  /** A re-fetch happens only after an update answered with a conflict: the answers a run used before its re-fetches were all conflicts. */
  lemma {:induction false} RunRetriesOnlyOnConflict(c: Csr, updates: seq<Option<Error>>, fetches: seq<Result<Csr, Error>>)
    ensures ConflictsFirst(updates, |Run(c, updates, fetches).fetchedNames|)
    decreases |updates|
  {
    ScriptExhaustedIsNotConflict();
    if Eligible(c) && NextUpdate(updates).Some? && IsConflict(NextUpdate(updates).value) {
      assert updates != [] && NextUpdate(updates) == updates[0];
      RunAfterConflict(c, updates, fetches);
      if NextFetch(fetches).Success? {
        var next, rest, fetchesRest := NextFetch(fetches).value, Rest(updates), Rest(fetches);
        RunRetriesOnlyOnConflict(next, rest, fetchesRest);
        var n := |Run(next, rest, fetchesRest).fetchedNames|;
        assert |Run(c, updates, fetches).fetchedNames| == n + 1;
        assert updates == [updates[0]] + rest;
        assert forall k :: 1 <= k < n + 1 ==> updates[k] == rest[k - 1];
      } else {
        assert |Run(c, updates, fetches).fetchedNames| == 1;
      }
    } else {
      RunWithoutRetry(c, updates, fetches);
    }
  }

  /** Every update and every fetch uses up exactly one scripted answer. */
  lemma {:induction false} RunConsumesScripts(c: Csr, updates: seq<Option<Error>>, fetches: seq<Result<Csr, Error>>)
    ensures var o := Run(c, updates, fetches);
      && (|o.submitted| <= |updates| ==> o.updatesLeft == updates[|o.submitted|..])
      && (|o.fetchedNames| <= |fetches| ==> o.fetchesLeft == fetches[|o.fetchedNames|..])
    decreases |updates|
  {
    ScriptExhaustedIsNotConflict();
    if Eligible(c) && NextUpdate(updates).Some? && IsConflict(NextUpdate(updates).value) && NextFetch(fetches).Success? {
      var next, rest, fetchesRest := NextFetch(fetches).value, Rest(updates), Rest(fetches);
      RunConsumesScripts(next, rest, fetchesRest);
      var o, o' := Run(c, updates, fetches), Run(next, rest, fetchesRest);
      assert o == Preceded([WithApproval(c)], [c.name], o');
      assert updates != [] && rest == updates[1..];
      if |o.submitted| <= |updates| {
        assert updates[|o.submitted|..] == rest[|o'.submitted|..];
      }
      if |o.fetchedNames| <= |fetches| {
        assert fetches[|o.fetchedNames|..] == fetchesRest[|o'.fetchedNames|..];
      }
    }
  }

  /**
   * After a successful run, every object it submitted carries a condition, so
   * approving the last one again sends nothing and returns no error. That is
   * the object the store holds when the run ended on a successful update; when
   * it ended on a re-fetched object that was already decided, the store holds
   * that object instead.
   */
  lemma ApproveAgainIsNoop(c: Csr, updates: seq<Option<Error>>, fetches: seq<Result<Csr, Error>>,
                           updates': seq<Option<Error>>, fetches': seq<Result<Csr, Error>>)
    requires var o := Run(c, updates, fetches); o.err.None? && o.submitted != []
    ensures var o := Run(c, updates, fetches);
      Run(o.submitted[|o.submitted| - 1], updates', fetches') == Outcome(None, [], [], updates', fetches')
  {
    RunSubmitsOnlyApprovals(c, updates, fetches);
  }

  /**
   * A conflict on the first update, a successful re-fetch of a still eligible
   * object and a successful second update: exactly two submissions, one
   * re-fetch by the request's name, and no error.
   */
  lemma RetryAfterConflictSucceeds(c: Csr, fetched: Csr, conflict: Error,
                                   updates: seq<Option<Error>>, fetches: seq<Result<Csr, Error>>)
    requires Eligible(c) && Eligible(fetched) && IsConflict(conflict)
    ensures Run(c, [Some(conflict), None] + updates, [Success(fetched)] + fetches)
      == Outcome(None, [WithApproval(c), WithApproval(fetched)], [c.name], updates, fetches)
  {
    var u := [Some(conflict), None] + updates;
    assert Rest(u) == [None] + updates;
    assert Rest([None] + updates) == updates;
    RunAfterConflict(c, u, [Success(fetched)] + fetches);
  }

  /**
   * A conflict whose re-fetch shows that someone else decided the request
   * meanwhile: one submission, one re-fetch, no error and no second update.
   */
  lemma ConflictWithConcurrentDecision(c: Csr, fetched: Csr, conflict: Error,
                                       updates: seq<Option<Error>>, fetches: seq<Result<Csr, Error>>)
    requires Eligible(c) && IsConflict(conflict) && |fetched.conditions| > 0
    ensures Run(c, [Some(conflict)] + updates, [Success(fetched)] + fetches)
      == Outcome(None, [WithApproval(c)], [c.name], updates, fetches)
  {
    var u := [Some(conflict)] + updates;
    assert Rest(u) == updates;
    RunAfterConflict(c, u, [Success(fetched)] + fetches);
  }

  /** An update error that is not a conflict is returned at once: one submission, no re-fetch. */
  lemma OtherUpdateErrorIsReturned(c: Csr, e: Error, updates: seq<Option<Error>>, fetches: seq<Result<Csr, Error>>)
    requires Eligible(c) && !IsConflict(e)
    ensures Run(c, [Some(e)] + updates, fetches) == Outcome(Some(e), [WithApproval(c)], [], updates, fetches)
  {
    assert Rest([Some(e)] + updates) == updates;
  }

  /** A failed re-fetch after a conflict is returned at once. */
  lemma FetchErrorIsReturned(c: Csr, conflict: Error, e: Error, updates: seq<Option<Error>>, fetches: seq<Result<Csr, Error>>)
    requires Eligible(c) && IsConflict(conflict)
    ensures Run(c, [Some(conflict)] + updates, [Failure(e)] + fetches)
      == Outcome(Some(e), [WithApproval(c)], [c.name], updates, fetches)
  {
    var u := [Some(conflict)] + updates;
    assert Rest(u) == updates;
    assert Rest([Failure(e)] + fetches) == fetches;
    RunAfterConflict(c, u, [Failure(e)] + fetches);
  }

  /**
   * The three checks made at the top of every attempt: no condition yet, the
   * bootstrap username, and the bootstrap group among the groups (searched
   * with a flag and an early exit).
   */
  method ShouldApprove(request: Request) returns (approve: bool)
    ensures approve <==> Eligible(request.Value())
  {
    if |request.conditions| > 0 {
      return false;
    }
    if request.username != KubeletBootstrapUsername {
      return false;
    }
    var isKubeletBootstrapGroup := false;
    for i := 0 to |request.groups|
      invariant forall j :: 0 <= j < i ==> request.groups[j] != KubeletBootstrapGroup
    {
      if request.groups[i] == KubeletBootstrapGroup {
        isKubeletBootstrapGroup := true;
        break;
      }
    }
    return isKubeletBootstrapGroup;
  }

  /**
   * Approves `request` if it is eligible and persists it, retrying on
   * conflicts against the re-fetched object. The caller's request keeps the
   * appended approval whatever the store answers.
   */
  method Approve(client: Client, request: Request) returns (err: Option<Error>)
    modifies client, request`conditions
    ensures request.conditions == if Eligible(old(request.Value())) then [AutoApproval] else old(request.conditions)
    ensures var o := Run(old(request.Value()), old(client.updates), old(client.fetches));
      && err == o.err
      && client.submitted == old(client.submitted) + o.submitted
      && client.fetchedNames == old(client.fetchedNames) + o.fetchedNames
      && client.updates == o.updatesLeft
      && client.fetches == o.fetchesLeft
  {
    ghost var start := request.Value();
    ghost var sent: seq<Csr> := [];
    ghost var names: seq<string> := [];
    ghost var total := Run(start, client.updates, client.fetches);
    ghost var cur := start;
    var current := request;
    while true
      invariant current == request || fresh(current)
      invariant current != request ==> Eligible(start) && request.conditions == [AutoApproval]
      invariant current == request ==> request.Value() == start
      invariant client.submitted == old(client.submitted) + sent
      invariant client.fetchedNames == old(client.fetchedNames) + names
      invariant current.Value() == cur
      invariant total == Preceded(sent, names, Run(cur, client.updates, client.fetches))
      decreases |client.updates|
    {
      ghost var before, updatesBefore, fetchesBefore := cur, client.updates, client.fetches;
      ghost var sentBefore, namesBefore := sent, names;
      var approve := ShouldApprove(current);
      if !approve {
        RunWithoutRetry(before, updatesBefore, fetchesBefore);
        return None;
      }
      current.conditions := current.conditions + [AutoApproval];
      var updateErr := client.UpdateApproval(current);
      sent := sent + [WithApproval(before)];
      if updateErr.Some? && IsConflict(updateErr.value) {
        RunAfterConflict(before, updatesBefore, fetchesBefore);
        var fetched, fetchErr := client.Get(current.name);
        names := names + [before.name];
        if fetchErr.Some? {
          return fetchErr;
        }
        current, cur := fetched, fetched.Value();
        PrecededTwice(sentBefore, namesBefore, [WithApproval(before)], [before.name],
          Run(cur, client.updates, client.fetches));
        continue;
      }
      RunWithoutRetry(before, updatesBefore, fetchesBefore);
      return updateErr;
    }
  }
}
