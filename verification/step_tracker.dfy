/**
 * The ordered list of progress steps the command line reports through
 * (`StepTracker.add`, `_update` and its callers start/complete/error/skip).
 * Rendering and the refresh callback are display only and are not modelled.
 */
module StepTracker {

  datatype Status = Pending | Running | Done | Error | Skipped

  datatype Step = Step(key: string, title: string, status: Status, detail: string)

  /** No two steps share a key. */
  predicate UniqueKeys(steps: seq<Step>) {
    forall i, j :: 0 <= i < j < |steps| ==> steps[i].key != steps[j].key
  }

  predicate HasKey(steps: seq<Step>, key: string) {
    exists i :: 0 <= i < |steps| && steps[i].key == key
  }

  /** `add`: append a pending step unless one with that key is already listed. */
  function Add(steps: seq<Step>, key: string, title: string): (r: seq<Step>)
    ensures HasKey(steps, key) ==> r == steps
    ensures !HasKey(steps, key) ==> r == steps + [Step(key, title, Pending, "")]
    ensures UniqueKeys(steps) ==> UniqueKeys(r)
  {
    if exists i :: 0 <= i < |steps| && steps[i].key == key then steps
    else steps + [Step(key, title, Pending, "")]
  }

  /** The step `_update` changes in place: only the status, and the detail when a new one is given. */
  function Updated(s: Step, status: Status, detail: string): (u: Step)
    ensures u.key == s.key && u.title == s.title && u.status == status
    ensures detail == "" ==> u.detail == s.detail
    ensures detail != "" ==> u.detail == detail
  {
    s.(status := status, detail := if detail != "" then detail else s.detail)
  }

  /** Position of the first step with the key, or `|steps|` when there is none. */
  function FirstIndex(steps: seq<Step>, key: string): (k: nat)
    ensures k <= |steps|
    ensures k < |steps| ==> steps[k].key == key
    ensures forall j :: 0 <= j < k ==> steps[j].key != key
    ensures k == |steps| <==> !HasKey(steps, key)
  {
    if steps == [] then 0
    else if steps[0].key == key then 0
    else 1 + FirstIndex(steps[1..], key)
  }

  /**
   * `_update`: the first step with the key gets the new status (and the new
   * detail when it is non-empty) and every other step is left alone; when no
   * step has the key, a step titled by its key is appended.
   */
  function Update(steps: seq<Step>, key: string, status: Status, detail: string): (r: seq<Step>)
    ensures var k := FirstIndex(steps, key);
            if k == |steps| then r == steps + [Step(key, key, status, detail)]
            else r == steps[k := Updated(steps[k], status, detail)]
    ensures UniqueKeys(steps) ==> UniqueKeys(r)
  {
    if steps == [] then [Step(key, key, status, detail)]
    else if steps[0].key == key then [Updated(steps[0], status, detail)] + steps[1..]
    else [steps[0]] + Update(steps[1..], key, status, detail)
  }

  /**
   * `r` is `steps` after recording `status` for `key`: the first step with the key
   * (or a step appended at the end) has that key and status, and every other step
   * is as it was.
   */
  predicate Records(steps: seq<Step>, r: seq<Step>, key: string, status: Status) {
    var k := FirstIndex(steps, key);
    && |r| == (if k == |steps| then |steps| + 1 else |steps|)
    && r[k].key == key && r[k].status == status
    && (forall i :: 0 <= i < |steps| && i != k ==> r[i] == steps[i])
  }

  /** `start`: the step is running. */
  function Start(steps: seq<Step>, key: string, detail: string): (r: seq<Step>)
    ensures Records(steps, r, key, Running)
    ensures UniqueKeys(steps) ==> UniqueKeys(r)
  {
    Update(steps, key, Running, detail)
  }

  /** `complete`: the step is done. */
  function Complete(steps: seq<Step>, key: string, detail: string): (r: seq<Step>)
    ensures Records(steps, r, key, Done)
    ensures UniqueKeys(steps) ==> UniqueKeys(r)
  {
    Update(steps, key, Done, detail)
  }

  /** `error`: the step failed. */
  function Fail(steps: seq<Step>, key: string, detail: string): (r: seq<Step>)
    ensures Records(steps, r, key, Error)
    ensures UniqueKeys(steps) ==> UniqueKeys(r)
  {
    Update(steps, key, Error, detail)
  }

  /** `skip`: the step was skipped. */
  function Skip(steps: seq<Step>, key: string, detail: string): (r: seq<Step>)
    ensures Records(steps, r, key, Skipped)
    ensures UniqueKeys(steps) ==> UniqueKeys(r)
  {
    Update(steps, key, Skipped, detail)
  }

  /** In a list with unique keys, updating the step at `k` touches that step only. */
  lemma UpdateExistingLocal(steps: seq<Step>, k: nat, status: Status, detail: string)
    requires UniqueKeys(steps) && k < |steps|
    ensures var r := Update(steps, steps[k].key, status, detail);
            && |r| == |steps|
            && r[k] == Updated(steps[k], status, detail)
            && (forall i :: 0 <= i < |steps| && i != k ==> r[i] == steps[i])
  {
    assert FirstIndex(steps, steps[k].key) == k;
  }

  /** A later update with an empty detail keeps the detail the earlier update recorded. */
  lemma UpdateKeepsDetail(steps: seq<Step>, k: nat, s1: Status, d: string, s2: Status)
    requires UniqueKeys(steps) && k < |steps|
    ensures var r := Update(Update(steps, steps[k].key, s1, d), steps[k].key, s2, "");
            r[k].status == s2 && r[k].detail == (if d != "" then d else steps[k].detail)
  {
    UpdateExistingLocal(steps, k, s1, d);
    var r1 := Update(steps, steps[k].key, s1, d);
    assert r1[k].key == steps[k].key;
    UpdateExistingLocal(r1, k, s2, "");
  }

  /**
   * Adding steps and then driving them through any sequence of start, complete,
   * error and skip calls keeps the keys unique.
   */
  datatype Op = AddOp(key: string, title: string) | UpdateOp(key: string, status: Status, detail: string)

  function Apply(steps: seq<Step>, ops: seq<Op>): (r: seq<Step>)
    ensures UniqueKeys(steps) ==> UniqueKeys(r)
    ensures |r| >= |steps|
    ensures forall i :: 0 <= i < |steps| ==> r[i].key == steps[i].key
    decreases |ops|
  {
    if ops == [] then steps
    else
      match ops[0]
      case AddOp(key, title) => Apply(Add(steps, key, title), ops[1..])
      case UpdateOp(key, status, detail) =>
        Apply(Update(steps, key, status, detail), ops[1..])
  }
}
