/**
  The take-once cell `Arc<Mutex<Option<T>>>` that both handles of the notification daemon
  are built on. Every clone of a handle shares one cell, so the model tracks the cell's
  contents and not the clones. `poisoned` stands for a mutex whose `lock()` returns `Err`.
*/
module TakeOnce {
  import opened Options

  datatype Slot<T> = Slot(poisoned: bool, content: Option<T>)

  /** A new cell holding `x`: `Arc::new(Mutex::new(Some(x)))`. */
  function Filled<T>(x: T): Slot<T>
  {
    Slot(false, Some(x))
  }

  /**
    Lock the cell and move its content out, leaving `None` behind. A poisoned lock gives
    `None` and leaves the cell as it was.
  */
  function Take<T>(s: Slot<T>): (r: (Slot<T>, Option<T>))
    ensures r.1.Some? <==> !s.poisoned && s.content.Some?
    ensures r.1.Some? ==> r.1 == s.content
    ensures r.0.poisoned == s.poisoned
    ensures r.0.poisoned || r.0.content.None?
    ensures r.1.None? ==> r.0 == s
  {
    if s.poisoned then (s, None) else (s.(content := None), s.content)
  }

  /** What `k` successive takes on one cell return, in order. */
  function TakeTimes<T>(s: Slot<T>, k: nat): (r: seq<Option<T>>)
    ensures |r| == k
    ensures k > 0 ==> r[0] == Take(s).1
    ensures forall i :: 1 <= i < k ==> r[i].None?
    decreases k
  {
    if k == 0 then []
    else
      var (s', taken) := Take(s);
      [taken] + TakeTimes(s', k - 1)
  }
}
