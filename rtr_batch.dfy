/**
 * The real-time-response part of proxytool3.py: opening one batch session
 * over the hosts, building the registry commands that rewrite the sensor's
 * proxy settings, and submitting them one at a time until one is refused.
 */
module RtrBatch {
  import opened Wrappers

  /** The status the command endpoint answers when it accepts a command. */
  const Created := 201

  /** The registry locations the commands edit, in the order they are handled. */
  const RegistryStores: seq<string> := [
    "HKLM:\\SYSTEM\\Crowdstrike\\{9b03c1d9-3138-44ed-9fae-d9f4c034b88d}\\{16e0423f-7058-48c9-a204-725362b67639}\\Default",
    "HKLM:\\SYSTEM\\CurrentControlSet\\Services\\CSAgent\\Sim"
  ]

  /** The values deleted from every store before the new proxy is set. */
  const KeysToDelete: seq<string> := ["DisableProxy", "PAC", "PN", "PP"]

  /**
   * The decoded reply to the batch-init request: the batch_id field, or None
   * when the body has no such field (or is not an object at all).
   */
  datatype InitResponse = InitResponse(batchId: Option<string>)

  /** One command as submitted: its base command and the full command line. */
  datatype Command = Command(base: string, line: string)

  /** How the submissions ended: all accepted, or refused with the given status. */
  datatype Dispatched = Done | Aborted(status: int)

  /**
   * The batch the run goes on with. A missing batch_id makes the init helper
   * return an empty tuple, and an empty id is just as falsy: both end the run.
   */
  function BatchIdFrom(response: InitResponse): (id: Option<string>)
    ensures id.Some? <==> response.batchId.Some? && response.batchId.value != ""
    ensures id.Some? ==> id.value == response.batchId.value
  {
    match response.batchId
    case None => None
    case Some(b) => if b == "" then None else Some(b)
  }

  /** A registry command on a store: the line is the base command, the store and the arguments, separated by spaces. */
  function StoreCommand(base: string, store: string, arguments: string): Command
  {
    Command(base, base + " " + store + " " + arguments)
  }

  function DeleteCommand(store: string, key: string): Command
  {
    StoreCommand("reg delete", store, key)
  }

  function HostnameCommand(store: string, hostname: string): Command
  {
    StoreCommand("reg set", store, "CsProxyHostname -ValueType=REG_SZ -Value=" + hostname)
  }

  function PortCommand(store: string, port: string): Command
  {
    StoreCommand("reg set", store, "CsProxyport -ValueType=REG_DWORD -Value=" + port)
  }

  /** The commands for one store: one deletion per key, in key order, then the hostname, then the port. */
  function StoreCommands(store: string, keys: seq<string>, hostname: string, port: string): (cs: seq<Command>)
    ensures |cs| == |keys| + 2
    ensures forall j :: 0 <= j < |keys| ==> cs[j] == DeleteCommand(store, keys[j])
    ensures cs[|keys|] == HostnameCommand(store, hostname)
    ensures cs[|keys| + 1] == PortCommand(store, port)
  {
    seq(|keys|, j requires 0 <= j < |keys| => DeleteCommand(store, keys[j]))
      + [HostnameCommand(store, hostname), PortCommand(store, port)]
  }

  /** Every command of the run, store after store. */
  function CommandPlan(stores: seq<string>, keys: seq<string>, hostname: string, port: string): (plan: seq<Command>)
    ensures |plan| == |stores| * (|keys| + 2)
  {
    if stores == [] then []
    else
      CommandPlan(stores[..|stores| - 1], keys, hostname, port)
        + StoreCommands(stores[|stores| - 1], keys, hostname, port)
  }

  /** The first n statuses are all 201. */
  predicate AllAccepted(statuses: seq<int>, n: nat)
  {
    n <= |statuses| && forall k :: 0 <= k < n ==> statuses[k] == Created
  }

  /** The n-th submission (counting from 1) is the first one refused, and it was refused with `status`. */
  predicate FirstRefusal(statuses: seq<int>, n: nat, status: int)
  {
    1 <= n <= |statuses| && statuses[n - 1] == status && status != Created && AllAccepted(statuses, n - 1)
  }

  lemma PlanStep(stores: seq<string>, keys: seq<string>, hostname: string, port: string, i: nat)
    requires i < |stores|
    ensures CommandPlan(stores[..i + 1], keys, hostname, port)
      == CommandPlan(stores[..i], keys, hostname, port) + StoreCommands(stores[i], keys, hostname, port)
  {
    assert stores[..i + 1][..i] == stores[..i];
  }

  /** The commands of the first i stores come first in the plan. */
  lemma {:induction false} PlanPrefix(stores: seq<string>, keys: seq<string>, hostname: string, port: string, i: nat)
    requires i <= |stores|
    ensures CommandPlan(stores[..i], keys, hostname, port) <= CommandPlan(stores, keys, hostname, port)
    decreases |stores| - i
  {
    if i < |stores| {
      PlanStep(stores, keys, hostname, port, i);
      PlanPrefix(stores, keys, hostname, port, i + 1);
    } else {
      assert stores[..i] == stores;
    }
  }

  /**
   * Where each command stands: with W = |keys| + 2 commands per store, the
   * j-th command of store i is at position i * W + j. So each store's
   * deletions come before its hostname command, which comes before its port
   * command, and all of a store's commands come before the next store's.
   */
  lemma {:induction false} PlanAt(stores: seq<string>, keys: seq<string>, hostname: string, port: string, i: nat, j: nat)
    requires i < |stores| && j < |keys| + 2
    ensures i * (|keys| + 2) + j < |CommandPlan(stores, keys, hostname, port)|
    ensures CommandPlan(stores, keys, hostname, port)[i * (|keys| + 2) + j]
      == StoreCommands(stores[i], keys, hostname, port)[j]
    decreases |stores|
  {
    var w := |keys| + 2;
    var init := stores[..|stores| - 1];
    assert |CommandPlan(init, keys, hostname, port)| == (|stores| - 1) * w;
    if i < |stores| - 1 {
      assert (i + 1) * w <= (|stores| - 1) * w;
      PlanAt(init, keys, hostname, port, i, j);
    } else {
      assert i * w == (|stores| - 1) * w;
    }
  }

  lemma PrefixOfPlan(done: seq<Command>, mine: seq<Command>, plan: seq<Command>, j: nat)
    requires done + mine <= plan && j <= |mine|
    ensures done + mine[..j] <= plan
  {
    assert (done + mine)[..|done| + j] == done + mine[..j];
  }

  /**
   * One pass of the loop over stores: the deletions for each key, then the
   * hostname, then the port, each submitted only if every earlier one was
   * accepted. `prior` holds the commands already submitted; the k-th
   * submission of the run gets statuses[k].
   */
  method SubmitStore(store: string, keys: seq<string>, hostname: string, port: string, statuses: seq<int>, prior: seq<Command>)
    returns (outcome: Dispatched, submitted: seq<Command>)
    requires |prior| + |keys| + 2 <= |statuses| && AllAccepted(statuses, |prior|)
    ensures prior < submitted <= prior + StoreCommands(store, keys, hostname, port)
    ensures outcome.Done? ==>
      submitted == prior + StoreCommands(store, keys, hostname, port) && AllAccepted(statuses, |submitted|)
    ensures outcome.Aborted? ==> FirstRefusal(statuses, |submitted|, outcome.status)
  {
    ghost var mine := StoreCommands(store, keys, hostname, port);
    submitted := prior;
    var j := 0;
    while j < |keys|
      invariant 0 <= j <= |keys|
      invariant submitted == prior + mine[..j]
      invariant AllAccepted(statuses, |submitted|)
    {
      var status := statuses[|submitted|];
      submitted := submitted + [DeleteCommand(store, keys[j])];
      assert submitted == prior + mine[..j + 1];
      if status != Created {
        outcome := Aborted(status);
        return;
      }
      j := j + 1;
    }

    var status := statuses[|submitted|];
    submitted := submitted + [HostnameCommand(store, hostname)];
    assert submitted == prior + mine[..|keys| + 1];
    if status != Created {
      outcome := Aborted(status);
      return;
    }

    status := statuses[|submitted|];
    submitted := submitted + [PortCommand(store, port)];
    assert mine[..|keys| + 2] == mine;
    outcome := if status == Created then Done else Aborted(status);
  }

  /**
   * The submission loops over stores. Commands are submitted in plan order;
   * the k-th submission gets statuses[k]. The first status other than 201
   * ends the run: that command was submitted, none after it.
   */
  method Dispatch(stores: seq<string>, keys: seq<string>, hostname: string, port: string, statuses: seq<int>)
    returns (outcome: Dispatched, submitted: seq<Command>)
    requires |statuses| >= |CommandPlan(stores, keys, hostname, port)|
    ensures submitted <= CommandPlan(stores, keys, hostname, port)
    ensures outcome.Done? ==>
      submitted == CommandPlan(stores, keys, hostname, port) && AllAccepted(statuses, |submitted|)
    ensures outcome.Aborted? ==> FirstRefusal(statuses, |submitted|, outcome.status)
  {
    ghost var plan := CommandPlan(stores, keys, hostname, port);
    submitted := [];
    var i := 0;
    while i < |stores|
      invariant 0 <= i <= |stores|
      invariant submitted == CommandPlan(stores[..i], keys, hostname, port)
      invariant AllAccepted(statuses, |submitted|)
    {
      ghost var done := submitted;
      PlanStep(stores, keys, hostname, port, i);
      PlanPrefix(stores, keys, hostname, port, i + 1);
      outcome, submitted := SubmitStore(stores[i], keys, hostname, port, statuses, submitted);
      if outcome.Aborted? {
        PrefixOfPlan(done, StoreCommands(stores[i], keys, hostname, port), plan, |submitted| - |done|);
        return;
      }
      i := i + 1;
    }
    assert stores[..i] == stores;
    outcome := Done;
  }

  /**
   * The run's own plan, written out: for each of the two stores in order, the
   * deletions of DisableProxy, PAC, PN and PP, then the hostname, then the
   * port: twelve commands.
   */
  lemma ScriptPlan(hostname: string, port: string)
    ensures var s0, s1 := RegistryStores[0], RegistryStores[1];
      CommandPlan(RegistryStores, KeysToDelete, hostname, port) == [
        DeleteCommand(s0, "DisableProxy"), DeleteCommand(s0, "PAC"), DeleteCommand(s0, "PN"), DeleteCommand(s0, "PP"),
        HostnameCommand(s0, hostname), PortCommand(s0, port),
        DeleteCommand(s1, "DisableProxy"), DeleteCommand(s1, "PAC"), DeleteCommand(s1, "PN"), DeleteCommand(s1, "PP"),
        HostnameCommand(s1, hostname), PortCommand(s1, port)]
  {
    var s0, s1 := RegistryStores[0], RegistryStores[1];
    assert RegistryStores == [s0, s1];
    TwoStorePlan(s0, s1, hostname, port);
  }

  /** The plan for two stores and the script's keys, written out. */
  lemma TwoStorePlan(s0: string, s1: string, hostname: string, port: string)
    ensures CommandPlan([s0, s1], KeysToDelete, hostname, port) == [
        DeleteCommand(s0, "DisableProxy"), DeleteCommand(s0, "PAC"), DeleteCommand(s0, "PN"), DeleteCommand(s0, "PP"),
        HostnameCommand(s0, hostname), PortCommand(s0, port),
        DeleteCommand(s1, "DisableProxy"), DeleteCommand(s1, "PAC"), DeleteCommand(s1, "PN"), DeleteCommand(s1, "PP"),
        HostnameCommand(s1, hostname), PortCommand(s1, port)]
  {
    StoreScript(s0, hostname, port);
    StoreScript(s1, hostname, port);
    assert [s0, s1][..1] == [s0] && [s0][..0] == [];
  }

  /** The commands for one store with the script's keys, written out. */
  lemma StoreScript(store: string, hostname: string, port: string)
    ensures StoreCommands(store, KeysToDelete, hostname, port) == [
      DeleteCommand(store, "DisableProxy"), DeleteCommand(store, "PAC"), DeleteCommand(store, "PN"),
      DeleteCommand(store, "PP"), HostnameCommand(store, hostname), PortCommand(store, port)]
  {
  }


  /**
   * Every command line starts with its base command and then the store it
   * edits; deletions use "reg delete" and the two value settings "reg set".
   */
  lemma CommandNamesItsStore(store: string, keys: seq<string>, hostname: string, port: string, j: nat)
    requires j < |keys| + 2
    ensures var c := StoreCommands(store, keys, hostname, port)[j];
      && c.base == (if j < |keys| then "reg delete" else "reg set")
      && |c.base + " " + store + " "| <= |c.line|
      && c.line[..|c.base + " " + store + " "|] == c.base + " " + store + " "
  {
  }

  /** At most one submission can be the first refused: the count the dispatcher reports is determined by the statuses. */
  lemma FirstRefusalUnique(statuses: seq<int>, n: nat, status: int, m: nat, status': int)
    requires FirstRefusal(statuses, n, status) && FirstRefusal(statuses, m, status')
    ensures n == m && status == status'
  {
  }

  /** A refusal among the first n statuses rules out their all being accepted. */
  lemma RefusalExcludesDone(statuses: seq<int>, k: nat, status: int, n: nat)
    requires FirstRefusal(statuses, k, status) && k <= n
    ensures !AllAccepted(statuses, n)
  {
    assert statuses[k - 1] != Created;
  }
}
