/**
 The single-item slot `sync::oneshot_cell::OneshotCell<T>`. Its source is not part
 of this model; it is modelled from its use at `transfer.rs`: `send` succeeds only
 into an empty cell and otherwise hands the value back, `try_recv` takes a stored
 value exactly once.
 */
module OneshotCell {
  import opened Wrappers

  datatype Cell<T> = Empty | Full(value: T) | Taken

  /** `oneshot_cell::TryRecvError`. */
  datatype TryRecvError = Pending | Closed

  /** `OneshotCell::new()`. */
  function New<T>(): (c: Cell<T>)
    ensures c.Empty?
  {
    Empty
  }

  /**
   `OneshotCell::send(value)`: accepted exactly when the cell is empty; a refused
   value comes back unchanged and the cell is left as it was.
   */
  function Send<T>(c: Cell<T>, v: T): (r: (Cell<T>, Result<(), T>))
    ensures r.1.Ok? <==> c.Empty?
    ensures r.1.Ok? ==> r.0 == Full(v)
    ensures r.1.Err? ==> r.1.error == v && r.0 == c
  {
    match c
    case Empty => (Full(v), Ok(()))
    case _ => (c, Err(v))
  }

  /**
   `OneshotCell::try_recv()`: a full cell yields its value and becomes taken; an
   empty cell is pending; a taken cell is closed. Only a read of a full cell
   changes the cell.
   */
  function TryRecv<T>(c: Cell<T>): (r: (Cell<T>, Result<T, TryRecvError>))
    ensures r.1.Ok? <==> c.Full?
    ensures r.1.Ok? ==> r.1.value == c.value && r.0 == Taken
    ensures r.1 == Err(TryRecvError.Pending) <==> c.Empty?
    ensures r.1 == Err(TryRecvError.Closed) <==> c.Taken?
    ensures r.1.Err? ==> r.0 == c
  {
    match c
    case Full(v) => (Taken, Ok(v))
    case Empty => (c, Err(TryRecvError.Pending))
    case Taken => (c, Err(TryRecvError.Closed))
  }

  /** What is sent into a fresh cell is read back once, and then the cell is closed. */
  lemma SendThenRecv<T>(v: T)
    ensures var (c1, s) := Send(New<T>(), v);
            var (c2, r) := TryRecv(c1);
            s == Ok(()) && r == Ok(v) && TryRecv(c2).1 == Err(TryRecvError.Closed)
  {
  }
}
