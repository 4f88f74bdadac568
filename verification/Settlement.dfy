/**
  What both executors record about the tasks they take from their queues.
 */
module Settlement {

  datatype Policy = Drain | CancelPending

  datatype Lifecycle = Open | Closing | Closed

  // A task taken from the queue, and whether it is cancelled rather than run.
  datatype Begun<T> = Begun(task: T, cancel: bool)

  function Tasks<T>(begun: seq<Begun<T>>): (r: seq<T>)
    ensures |r| == |begun| && forall i :: 0 <= i < |r| ==> r[i] == begun[i].task
  {
    seq(|begun|, i requires 0 <= i < |begun| => begun[i].task)
  }

  // How many were run, or cancelled.
  function Count<T>(begun: seq<Begun<T>>, cancel: bool): nat {
    if begun == [] then 0
    else Count(begun[..|begun| - 1], cancel) + if begun[|begun| - 1].cancel == cancel then 1 else 0
  }

  lemma CountAppend<T>(begun: seq<Begun<T>>, b: Begun<T>)
    ensures forall cancel :: Count(begun + [b], cancel) == Count(begun, cancel) + if b.cancel == cancel then 1 else 0
  {
    assert (begun + [b])[..|begun|] == begun;
  }
}
