/** The interrupt-driven I2C master transmission: the starting call fills the transmit FIFO, the
    TX_EMPTY interrupt resumes where the last fill stopped. What reaches the bus is the sequence of
    values written to DATA_CMD.

    The FIFO and the bus are an environment: in each fill, `room` is the number of turns before the
    FIFO is found full and `abrt` the turn after which the abort flag is found set. */
module I2cTransmit {
  import opened Machine

  const CMD_STOP := 0x0200

  datatype State = State(data: seq<byte>, size: nat, count: nat, txBusy: bool, rxBusy: bool, enabled: bool,
                         log: seq<nat>, base: seq<nat>, aborted: bool)

  datatype Outcome = Finished | Aborted | Full

  /** What the bus must see of d: its bytes in order, the stop bit on the last and on no other. */
  function Frame(d: seq<byte>): (r: seq<nat>)
    ensures |r| == |d|
  {
    seq(|d|, i requires 0 <= i < |d| => if i == |d| - 1 then d[i] + CMD_STOP else d[i])
  }

  /** How far one fill gets when `left` bytes are missing, and why it stops. */
  function Reach(left: nat, room: nat, abrt: nat): (r: (nat, Outcome))
    requires left > 0
    ensures r.0 <= left && (r.1 == Finished <==> r.0 == left)
  {
    if left <= room && left <= abrt + 1 then (left, Finished)
    else if abrt < room then (abrt + 1, Aborted)
    else (room, Full)
  }

  ghost predicate Busy(x: State) {
    x.count < x.size <= |x.data| && x.size <= 0xFFFF_FFFF
  }

  function Filled(x: State, n: nat): State
    requires x.count + n <= x.size <= |x.data|
  {
    x.(count := x.count + n, log := x.log + Frame(x.data[..x.size])[x.count..x.count + n])
  }

  lemma FilledNone(x: State)
    requires Busy(x)
    ensures Filled(x, 0) == x
  {
  }

  lemma FilledTwice(x: State, n: nat)
    requires Busy(x) && x.count + n < x.size
    ensures Busy(Filled(x, n)) && Filled(Filled(x, n), 1) == Filled(x, n + 1)
    ensures Filled(x, n).count == x.count + n && Filled(x, n).size == x.size
    ensures Filled(x, n + 1).count == x.count + n + 1
  {
    var f := Frame(x.data[..x.size]);
    assert f[x.count..x.count + n] + f[x.count + n..x.count + n + 1] == f[x.count..x.count + n + 1];
  }

  /** i2c_IRQHandler, as far as TX_EMPTY goes. */
  function Interrupted(x: State, status: bool, room: nat, abrt: nat): State
    requires x.enabled ==> Busy(x)
  {
    if !x.enabled || !status then x
    else
      var (n, outcome) := Reach(x.size - x.count, room, abrt);
      if outcome == Full then Filled(x, n)
      else Filled(x, n).(txBusy := false, enabled := false, aborted := outcome == Aborted)
  }

  /** i2c_master_transmit_IT. nack: the abort flag, looked at once more when the FIFO has drained. */
  function Started(x: State, data: seq<byte>, size: u32, room: nat, abrt: nat, nack: bool): (State, bool)
    requires size <= |data|
  {
    if size == 0 || x.txBusy || x.rxBusy then (x, false)
    else
      var y := State(data, size, 0, true, x.rxBusy, x.enabled, x.log, x.log, false);
      var (n, outcome) := Reach(size, room, abrt);
      if outcome == Finished then (Filled(y, n).(txBusy := false), true)
      else if outcome == Aborted || nack then (Filled(y, n).(txBusy := false, aborted := true), false)
      else (Filled(y, n).(enabled := true), true)
  }

  class Handle {
    var txData: seq<byte>
    var txSize: u32
    var txCount: u32
    var txBusy: bool
    var rxBusy: bool
    var txEmptyEnabled: bool
    var dataCmd: seq<nat>
    ghost var base: seq<nat>
    ghost var aborted: bool

    ghost predicate Valid()
      reads this
    {
      txSize < 0xFFFF_FFFF && (txEmptyEnabled ==> Busy(Now()))
    }

    /** u32_TxSize holds one less than the number of bytes. */
    ghost function Now(): State
      reads this
    {
      State(txData, txSize + 1, txCount, txBusy, rxBusy, txEmptyEnabled, dataCmd, base, aborted)
    }

    constructor ()
      ensures Now() == State([], 1, 0, false, false, false, [], [], false)
      ensures Valid()
    {
      txData, txSize, txCount, txBusy, rxBusy, txEmptyEnabled := [], 0, 0, false, false, false;
      dataCmd, base, aborted := [], [], false;
    }

    /** The next byte goes to DATA_CMD, with the stop bit if it is the last. */
    method WriteNext() returns (last: bool)
      requires Busy(Now())
      modifies this`txCount, this`dataCmd
      ensures Now() == Filled(old(Now()), 1)
      ensures last <==> txCount == Now().size
    {
      ghost var frame := Frame(txData[..txSize + 1]);
      assert frame[txCount..txCount + 1] == [frame[txCount]];
      last := txCount >= txSize;
      dataCmd := dataCmd + [if last then txData[txCount] + CMD_STOP else txData[txCount]];
      txCount := txCount + 1;
    }

    /** The loop that the starting call and the interrupt handler share. */
    method Fill(room: nat, abrt: nat) returns (outcome: Outcome)
      requires Busy(Now())
      modifies this`txCount, this`dataCmd
      ensures outcome == Reach(old(Now()).size - old(txCount), room, abrt).1
      ensures Now() == Filled(old(Now()), Reach(old(Now()).size - old(txCount), room, abrt).0)
    {
      ghost var x := Now();
      hide Frame, Filled;
      FilledNone(x);
      var turn := 0;
      while turn < room
        invariant turn <= room && turn <= abrt && turn < x.size - x.count
        invariant Now() == Filled(x, turn) && txCount == x.count + turn && txSize + 1 == x.size
      {
        FilledTwice(x, turn);
        var last := WriteNext();
        if last {
          return Finished;
        }
        if turn >= abrt {
          return Aborted;
        }
        turn := turn + 1;
      }
      outcome := Full;
    }

    method Interrupt(status: bool, room: nat, abrt: nat)
      requires Valid()
      modifies this
      ensures Valid() && Now() == Interrupted(old(Now()), status, room, abrt)
    {
      if txEmptyEnabled && status {
        var outcome := Fill(room, abrt);
        if outcome != Full {
          txBusy, txEmptyEnabled := false, false;
          aborted := outcome == Aborted;
        }
      }
    }

    method TransmitIT(data: seq<byte>, size: u32, room: nat, abrt: nat, nack: bool) returns (ok: bool)
      requires size <= |data| && Valid() && (txEmptyEnabled ==> txBusy)
      modifies this
      ensures Valid() && (Now(), ok) == Started(old(Now()), data, size, room, abrt, nack)
    {
      if size == 0 || txBusy || rxBusy {
        return false;
      }
      txSize, txCount, txData, txBusy := size - 1, 0, data, true;
      base, aborted := dataCmd, false;
      var outcome := Fill(room, abrt);
      if outcome == Finished {
        txBusy := false;
        return true;
      }
      if outcome == Aborted || nack {
        txBusy := false;
        aborted := true;
        return false;
      }
      txEmptyEnabled := true;
      return true;
    }

    /** i2c_master_transmit. polls: what each turn of its loop finds, full and abort; last: the waits
        for the end of the transmission come to an end; failed: the abort flag behind them. n and t tell
        how many bytes were written in how many turns. */
    method Transmit(data: seq<byte>, size: u32, polls: seq<(bool, bool)>, last: bool, failed: bool)
      returns (r: Blocking, ghost n: nat, ghost t: nat)
      requires size <= |data|
      modifies this`dataCmd
      ensures n <= size && t <= |polls| && dataCmd == old(dataCmd) + Frame(data[..size])[..n]
      ensures r == Sent ==> n == size > 0 && last && !failed && Free(polls[..t]) == size - 1 && Quiet(polls[..t])
      ensures r == Waiting ==>
                && Quiet(polls[..t]) && n == Free(polls[..t]) < size
                && if n == size - 1 then !last else t == |polls|
      ensures r == Failed && size > 0 ==>
                || (t > 0 && polls[t - 1].1 && Quiet(polls[..t - 1]) && n == Free(polls[..t]) < size)
                || (last && failed && n == size && Free(polls[..t]) == size - 1 && Quiet(polls[..t]))
    {
      n, t := 0, 0;
      if size == 0 {
        return Failed, 0, 0;
      }
      ghost var frame := Frame(data[..size]);
      var left, turn := size, 0;
      while left != 1
        invariant 1 <= left <= size && n == size - left && t == turn <= |polls|
        invariant dataCmd == old(dataCmd) + frame[..n]
        invariant n == Free(polls[..turn]) && Quiet(polls[..turn])
        decreases |polls| - turn
      {
        if turn == |polls| {
          return Waiting, n, t;
        }
        t := t + 1;
        assert polls[..t][..turn] == polls[..turn];
        if !polls[turn].0 {
          dataCmd := dataCmd + [data[size - left]];
          left, n := left - 1, n + 1;
          assert frame[..n] == frame[..n - 1] + [frame[n - 1]];
        }
        if polls[turn].1 {
          return Failed, n, t;
        }
        turn := turn + 1;
      }
      if !last {
        return Waiting, n, t;
      }
      dataCmd := dataCmd + [data[size - left] + CMD_STOP];
      n := n + 1;
      assert frame[..n] == frame[..n - 1] + [frame[n - 1]];
      r := if failed then Failed else Sent;
    }
  }

  /** In how many turns the FIFO had room, and whether no turn found the abort flag. */
  function Free(polls: seq<(bool, bool)>): nat {
    if polls == [] then 0 else Free(polls[..|polls| - 1]) + if polls[|polls| - 1].0 then 0 else 1
  }

  predicate Quiet(polls: seq<(bool, bool)>) {
    forall i :: 0 <= i < |polls| ==> !polls[i].1
  }

  datatype Blocking = Sent | Failed | Waiting

  // ----- whole runs

  datatype Event =
    | Start(data: seq<byte>, size: u32, room: nat, abrt: nat, nack: bool)
    | Irq(status: bool, room: nat, abrt: nat)

  /** The caller passes a buffer of at least the size it names. */
  predicate Sound(e: Event) {
    e.Start? ==> e.size <= |e.data|
  }

  ghost predicate Inv(x: State) {
    && (x.enabled <==> x.txBusy)
    && (x.txBusy ==> Busy(x) && !x.aborted)
    && x.count <= x.size <= 0xFFFF_FFFF
    && (if x.data == [] then x.log == x.base && !x.txBusy && !x.aborted
        else x.size <= |x.data| && x.log == x.base + Frame(x.data[..x.size])[..x.count]
             && (!x.txBusy && !x.aborted ==> x.count == x.size))
  }

  ghost function Step(x: State, e: Event): State
    requires Inv(x) && Sound(e)
  {
    match e
    case Start(data, size, room, abrt, nack) => Started(x, data, size, room, abrt, nack).0
    case Irq(status, room, abrt) => Interrupted(x, status, room, abrt)
  }

  /** A step keeps the invariant, only appends to what the bus has seen, and begins a new transfer
      only when none is busy. */
  lemma StepKeeps(x: State, e: Event)
    requires Inv(x) && Sound(e)
    ensures Inv(Step(x, e))
    ensures x.log <= Step(x, e).log
    ensures var y := Step(x, e);
            || (y.base == x.base && y.data == x.data && y.size == x.size)
            || (!x.txBusy && y.base == x.log)
  {
    if e.Irq? {
      if x.enabled {
        FillKeeps(x, Reach(x.size - x.count, e.room, e.abrt).0);
      }
    } else if e.size > 0 && !x.txBusy && !x.rxBusy {
      var y := State(e.data, e.size, 0, true, x.rxBusy, x.enabled, x.log, x.log, false);
      assert Frame(y.data[..y.size])[..0] == [];
      FillKeeps(y, Reach(e.size, e.room, e.abrt).0);
    }
  }

  lemma FillKeeps(x: State, n: nat)
    requires Busy(x) && x.count + n <= x.size
    requires x.log == x.base + Frame(x.data[..x.size])[..x.count]
    ensures var y := Filled(x, n); y.log == x.base + Frame(x.data[..x.size])[..y.count] && x.log <= y.log
  {
    var f := Frame(x.data[..x.size]);
    assert f[..x.count] + f[x.count..x.count + n] == f[..x.count + n];
  }

  predicate AllSound(es: seq<Event>) {
    forall i :: 0 <= i < |es| ==> Sound(es[i])
  }

  ghost function Run(x: State, es: seq<Event>): State
    requires Inv(x) && AllSound(es)
    decreases |es|
  {
    if es == [] then x
    else
      StepKeeps(x, es[0]);
      Run(Step(x, es[0]), es[1..])
  }

  lemma {:induction false} RunKeeps(x: State, es: seq<Event>)
    requires Inv(x) && AllSound(es)
    ensures Inv(Run(x, es)) && x.log <= Run(x, es).log
    decreases |es|
  {
    if es != [] {
      StepKeeps(x, es[0]);
      RunKeeps(Step(x, es[0]), es[1..]);
    }
  }

  /** At any moment of any run, the transfer begun last has written a prefix of its frame, each byte
      once and in order; the interrupt is enabled exactly while the transfer is busy; a busy transfer
      has bytes left; and one that is over has written its whole frame unless it was aborted. */
  lemma EveryRunSendsOneFrame(es: seq<Event>)
    requires AllSound(es)
    ensures var x := Run(State([], 1, 0, false, false, false, [], [], false), es);
            && (x.enabled <==> x.txBusy)
            && (x.data != [] ==>
                  && x.count <= x.size <= |x.data| && x.log == x.base + Frame(x.data[..x.size])[..x.count]
                  && (x.txBusy ==> x.count < x.size)
                  && (!x.txBusy && !x.aborted ==> x.log == x.base + Frame(x.data[..x.size])))
  {
    var x := Run(State([], 1, 0, false, false, false, [], [], false), es);
    RunKeeps(State([], 1, 0, false, false, false, [], [], false), es);
    if x.data != [] {
      var f := Frame(x.data[..x.size]);
      assert f[..|f|] == f;
    }
  }

  /** The bus sees in every run, byte by byte, the caller's data; bit 9, the stop, is set on the last byte
      and on no other. */
  lemma BusSeesTheBytes(es: seq<Event>, i: nat)
    requires AllSound(es)
    ensures var x := Run(State([], 1, 0, false, false, false, [], [], false), es);
            x.data != [] && i < x.count ==>
              && x.count <= x.size <= |x.data| && |x.log| == |x.base| + x.count
              && x.log[|x.base| + i] % 0x100 == x.data[i]
              && x.log[|x.base| + i] / 0x200 == (if i == x.size - 1 then 1 else 0)
  {
    EveryRunSendsOneFrame(es);
    hide Run;
  }

  /** How an interrupt ends, for every abort: it writes until the data, the room or the abort stops it; an
      abort before the last byte ends the transfer, and so does the last byte. */
  lemma InterruptStops(x: State, status: bool, room: nat, abrt: nat)
    requires Inv(x) && x.txBusy
    ensures var (y, left) := (Interrupted(x, status, room, abrt), x.size - x.count);
            if !status then y == x
            else && y.count == x.count + Min(left, Min(room, abrt + 1))
                 && (y.aborted <==> abrt < room && abrt + 1 < left)
                 && (y.txBusy <==> room < left && room <= abrt)
                 && y.enabled == y.txBusy && y.rxBusy == x.rxBusy
                 && y.data == x.data && y.size == x.size && y.base == x.base
  {
  }

  /** How a starting call ends: refused without a trace when there is nothing to send or a transfer is
      under way, else accepted unless an abort is seen before the last byte. */
  lemma StartAnswers(x: State, data: seq<byte>, size: u32, room: nat, abrt: nat, nack: bool)
    requires Inv(x) && size <= |data|
    ensures var (y, ok) := Started(x, data, size, room, abrt, nack);
            if size == 0 || x.txBusy || x.rxBusy then !ok && y == x
            else && y.data == data && y.size == size && y.base == x.log && y.rxBusy == x.rxBusy
                 && y.count == Min(size, Min(room, abrt + 1))
                 && (y.aborted <==> y.count < size && (abrt < room || nack))
                 && (y.txBusy <==> y.count < size && !y.aborted) && y.enabled == y.txBusy
                 && (ok <==> !y.aborted)
  {
  }

  /** Interrupts that find room and no abort. */
  predicate Helpful(es: seq<Event>, size: nat) {
    forall i :: 0 <= i < |es| ==> es[i].Irq? && es[i].status && es[i].room > 0 && es[i].abrt >= size
  }

  /** As many interrupts as bytes are left, each finding room and no abort, complete the transfer. */
  lemma {:induction false} InterruptsComplete(x: State, es: seq<Event>)
    requires Inv(x) && x.txBusy && |es| >= x.size - x.count && Helpful(es, x.size)
    ensures var y := Run(x, es); !y.txBusy && !y.aborted && y.log == x.base + Frame(x.data[..x.size])
    decreases |es|
  {
    var z := Step(x, es[0]);
    StepKeeps(x, es[0]);
    if z.txBusy {
      InterruptsComplete(z, es[1..]);
    } else {
      NothingMore(z, es[1..]);
      var f := Frame(x.data[..x.size]);
      assert f[..|f|] == f;
    }
  }

  /** Interrupts after the end of a transfer change nothing. */
  lemma {:induction false} NothingMore(x: State, es: seq<Event>)
    requires Inv(x) && !x.txBusy && AllSound(es) && forall i :: 0 <= i < |es| ==> es[i].Irq?
    ensures Run(x, es) == x
    decreases |es|
  {
    if es != [] {
      NothingMore(x, es[1..]);
    }
  }
}
