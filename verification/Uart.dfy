/** The bit-banged UART: transmitter and receiver as two state machines that a timer steps, joined by one wire. */
module Uart {
  import opened Prelude

  const BUFFER_SIZE := 200
  const START_BIT := 1
  const DATA_BITS := 8
  const STOP_BIT := 1

  /** Timer ticks per byte: ten bits and one tick that only moves on to the next byte. */
  const TICKS := 11

  /** The transmitter; level is what it drives onto its pin. */
  datatype Tx = Tx(buf: seq<bv8>, index: nat, bitPos: nat, length: nat, busy: bool, enable: bool, level: bool)

  datatype Rx = Rx(enable: bool, start: bool, bitCount: nat, byte: bv8, received: seq<bv8>)

  ghost predicate TxValid(t: Tx) {
    && |t.buf| == BUFFER_SIZE && t.length <= BUFFER_SIZE && t.bitPos <= START_BIT + DATA_BITS + STOP_BIT
    && (t.enable ==> t.index < t.length)
  }

  ghost predicate RxValid(r: Rx) {
    r.bitCount <= DATA_BITS && |r.received| <= BUFFER_SIZE
  }

  function Bit(b: bv8, k: nat): bool
    requires k < 8
  {
    (b >> k) & 1 == 1
  }

  function WithBit(b: bv8, k: nat, bit: bool): bv8
    requires k < 8
  {
    b | ((if bit then 1 else 0) << k)
  }

  function TxTicked(t: Tx): (r: Tx)
    requires TxValid(t)
    ensures TxValid(r)
  {
    if !t.enable then t
    else if t.bitPos < START_BIT + DATA_BITS + STOP_BIT then
      t.(level := if t.bitPos < START_BIT then false
                  else if t.bitPos < START_BIT + DATA_BITS then Bit(t.buf[t.index], t.bitPos - START_BIT)
                  else true,
      bitPos := t.bitPos + 1)
    else if t.index + 1 >= t.length
        then t.(bitPos := 0, index := t.index + 1, busy := false, enable := false, level := true)
    else t.(bitPos := 0, index := t.index + 1)
  }

  function RxTicked(r: Rx, bit: bool): (s: Rx)
    requires RxValid(r)
    ensures RxValid(s)
  {
    if !r.enable then r
    else if !r.start then if bit then r else r.(start := true, bitCount := 0, byte := 0)
    else if r.bitCount < DATA_BITS then r.(byte := WithBit(r.byte, r.bitCount, bit), bitCount := r.bitCount + 1)
    else r.(start := false, received := if bit && |r.received| < BUFFER_SIZE then r.received + [r.byte] else r.received)
  }

  // ---------- the line ----------

  datatype Line = Line(tx: Tx, rx: Rx)

  ghost predicate LineValid(l: Line) { TxValid(l.tx) && RxValid(l.rx) }

  /** One tick of both timers, the transmitter first. */
  function Ticked(l: Line): (r: Line)
    requires LineValid(l)
    ensures LineValid(r)
  {
    var t := TxTicked(l.tx);
    Line(t, RxTicked(l.rx, t.level))
  }

  /** One tick of both timers, the receiver first. */
  function TickedRxFirst(l: Line): (r: Line)
    requires LineValid(l)
    ensures LineValid(r)
  {
    Line(TxTicked(l.tx), RxTicked(l.rx, l.tx.level))
  }

  function After(l: Line, n: nat): (r: Line)
    requires LineValid(l)
    ensures LineValid(r)
  {
    if n == 0 then l else Ticked(After(l, n - 1))
  }

  function AfterRxFirst(l: Line, n: nat): (r: Line)
    requires LineValid(l)
    ensures LineValid(r)
  {
    if n == 0 then l else TickedRxFirst(AfterRxFirst(l, n - 1))
  }

  lemma {:induction false} AfterSum(l: Line, m: nat, n: nat)
    requires LineValid(l)
    ensures After(l, m + n) == After(After(l, m), n)
  {
    hide Ticked;
    if n > 0 {
      AfterSum(l, m, n - 1);
    }
  }

  /** A receiver that is switched on and between two bytes. */
  ghost predicate Listening(r: Rx) { RxValid(r) && r.enable && !r.start }

  /** A transmitter about to send byte number index. */
  ghost predicate AtByte(t: Tx, index: nat) {
    TxValid(t) && t.enable && t.busy && t.index == index && t.bitPos == 0
  }

  /** The bits below k. */
  function LowBits(b: bv8, k: nat): bv8
    requires k <= 8
  {
    if k == 0 then 0 else WithBit(LowBits(b, k - 1), k - 1, Bit(b, k - 1))
  }

  lemma AllBits(b: bv8)
    ensures LowBits(b, 8) == b
  {
    EachBit(b);
    assert LowBits(b, 1) == WithBit(0, 0, Bit(b, 0));
    assert LowBits(b, 2) == WithBit(LowBits(b, 1), 1, Bit(b, 1));
    assert LowBits(b, 3) == WithBit(LowBits(b, 2), 2, Bit(b, 2));
    assert LowBits(b, 4) == WithBit(LowBits(b, 3), 3, Bit(b, 3));
    assert LowBits(b, 5) == WithBit(LowBits(b, 4), 4, Bit(b, 4));
    assert LowBits(b, 6) == WithBit(LowBits(b, 5), 5, Bit(b, 5));
    assert LowBits(b, 7) == WithBit(LowBits(b, 6), 6, Bit(b, 6));
  }

  lemma EachBit(b: bv8)
    ensures var low := WithBit(WithBit(WithBit(WithBit(0, 0, Bit(b, 0)), 1, Bit(b, 1)), 2, Bit(b, 2)), 3, Bit(b, 3));
            WithBit(WithBit(WithBit(WithBit(low, 4, Bit(b, 4)), 5, Bit(b, 5)), 6, Bit(b, 6)), 7, Bit(b, 7)) == b
  {
  }

  /** The level that tick k of a byte puts on the wire: start bit low, eight data bits low order first, then high. */
  function OnWire(b: bv8, k: nat): bool {
    if k <= 1 then false else if k <= 9 then Bit(b, k - 2) else true
  }

  /** The byte 0x53, binary 01010011: the start bit, its bits from the lowest to the highest, and the stop bit. */
  lemma KnownFrame()
    ensures seq(10, i requires 0 <= i < 10 => OnWire(0x53, i + 1))
         == [false, true, true, false, false, true, false, true, false, true]
  {
    assert Bit(0x53, 0) && Bit(0x53, 1) && !Bit(0x53, 2) && !Bit(0x53, 3);
    assert Bit(0x53, 4) && !Bit(0x53, 5) && Bit(0x53, 6) && !Bit(0x53, 7);
  }

  /** In the middle of a byte both sides agree on how many bits have passed. */
  ghost predicate Midway(l: Line, before: Line, k: nat) {
    && LineValid(l) && 1 <= k <= 9
    && before.tx.index < |before.tx.buf|
    && l.tx == before.tx.(bitPos := k, level := OnWire(before.tx.buf[before.tx.index], k))
    && l.rx == before.rx.(start := true, bitCount := k - 1, byte := l.rx.byte)
    && l.rx.byte == LowBits(before.tx.buf[before.tx.index], k - 1)
  }

  lemma {:induction false} MidwayAfter(l: Line, index: nat, k: nat)
    requires LineValid(l) && AtByte(l.tx, index) && Listening(l.rx) && 1 <= k <= 9
    ensures Midway(After(l, k), l, k)
  {
    hide Bit, WithBit;
    if k == 1 {
      assert After(l, 1) == Ticked(After(l, 0));
    } else {
      MidwayAfter(l, index, k - 1);
    }
  }

  /** What the receiver has after b arrives. */
  function Received(s: seq<bv8>, data: seq<bv8>): seq<bv8>
  {
    if |s + data| <= BUFFER_SIZE then s + data else (s + data)[..BUFFER_SIZE]
  }

  /** The stop bit delivers the byte; the tick after it keeps the wire high and is no start bit. */
  lemma OneByte(l: Line, index: nat)
    requires LineValid(l) && AtByte(l.tx, index) && Listening(l.rx)
    ensures var (s, e) := (After(l, 10), After(l, 11));
            && s.rx == e.rx == l.rx.(bitCount := 8, byte := l.tx.buf[index],
                                     received := Received(l.rx.received, [l.tx.buf[index]]))
            && s.tx.busy && s.tx.level
            && e.tx == l.tx.(index := index + 1, level := true, busy := index + 1 < l.tx.length,
                             enable := index + 1 < l.tx.length)
  {
    hide Bit, WithBit, LowBits;
    MidwayAfter(l, index, 9);
    AllBits(l.tx.buf[index]);
    var m := After(l, 9);
    assert After(l, 10) == Ticked(m);
    assert After(l, 11) == Ticked(Ticked(m));
  }

  /** The wire carries frames of one start bit, eight data bits low order first and one stop bit, and a high
      gap tick. */
  lemma FrameOnWire(l: Line, i: nat, k: nat)
    requires LineValid(l) && AtByte(l.tx, 0) && Listening(l.rx) && i < l.tx.length && 1 <= k <= TICKS
    ensures After(l, TICKS * i + k).tx.level == OnWire(l.tx.buf[i], k)
  {
    hide After, Received, Bit;
    DeliveredAfter(l, i);
    var m := After(l, TICKS * i);
    AfterSum(l, TICKS * i, k);
    if k <= 9 {
      MidwayAfter(m, i, k);
    } else {
      OneByte(m, i);
    }
  }

  /** What holds when i bytes have gone over the wire. */
  ghost predicate Delivered(l: Line, before: Line, i: nat) {
    && LineValid(l) && Listening(l.rx) && i <= before.tx.length && before.tx.length <= |before.tx.buf|
    && l.tx == before.tx.(index := i, level := if i == 0 then before.tx.level else true,
                          busy := i < before.tx.length, enable := i < before.tx.length)
    && l.rx.received == Received(before.rx.received, before.tx.buf[..i])
  }

  lemma {:induction false} DeliveredAfter(l: Line, i: nat)
    requires LineValid(l) && AtByte(l.tx, 0) && Listening(l.rx) && i <= l.tx.length
    ensures Delivered(After(l, TICKS * i), l, i)
  {
    hide After;
    if i == 0 {
      NoTicks(l);
    } else {
      DeliveredAfter(l, i - 1);
      var m := After(l, TICKS * (i - 1));
      OneByte(m, i - 1);
      AfterSum(l, TICKS * (i - 1), TICKS);
      var b := l.tx.buf[i - 1];
      assert l.tx.buf[..i] == l.tx.buf[..i - 1] + [b];
      ReceivedTwice(l.rx.received, l.tx.buf[..i - 1], [b]);
    }
  }

  lemma NoTicks(l: Line)
    requires LineValid(l)
    ensures After(l, 0) == l && Received(l.rx.received, l.tx.buf[..0]) == l.rx.received
  {
  }

  lemma ReceivedTwice(s: seq<bv8>, d: seq<bv8>, e: seq<bv8>)
    requires |s| <= BUFFER_SIZE
    ensures Received(Received(s, d), e) == Received(s, d + e)
  {
    assert s + d + e == s + (d + e);
  }

  /** Loopback: exactly 11 ticks per byte after a send, the payload has been appended to the receive buffer as far as
      there is room, the wire is high and the transmitter idle; before that it is busy at every tick. */
  lemma Loopback(l: Line, n: nat)
    requires LineValid(l) && AtByte(l.tx, 0) && Listening(l.rx)
    ensures var e := After(l, TICKS * l.tx.length);
            && e.rx.received == Received(l.rx.received, l.tx.buf[..l.tx.length])
            && Listening(e.rx) && !e.tx.busy && !e.tx.enable && e.tx.level
    ensures n < TICKS * l.tx.length ==> After(l, n).tx.busy
  {
    hide After, Received;
    DeliveredAfter(l, l.tx.length);
    if n < TICKS * l.tx.length {
      StillBusy(l, n / TICKS, n % TICKS);
    }
  }

  lemma StillBusy(l: Line, i: nat, k: nat)
    requires LineValid(l) && AtByte(l.tx, 0) && Listening(l.rx) && i < l.tx.length && k < TICKS
    ensures After(l, TICKS * i + k).tx.busy
  {
    hide Received, After;
    DeliveredAfter(l, i);
    var m := After(l, TICKS * i);
    AfterSum(l, TICKS * i, k);
    NoTicks(m);
    if 1 <= k <= 9 {
      MidwayAfter(m, i, k);
    } else if k == 10 {
      OneByte(m, i);
    }
  }

  /** With the receiver's timer first, the receiver sees the wire one tick later. */
  lemma {:induction false} OneTickLater(l: Line, n: nat)
    requires LineValid(l) && Listening(l.rx) && l.tx.level
    ensures AfterRxFirst(l, n + 1) == Line(After(l, n + 1).tx, After(l, n).rx)
  {
    if n > 0 {
      OneTickLater(l, n - 1);
    } else {
      assert AfterRxFirst(l, 1) == TickedRxFirst(AfterRxFirst(l, 0));
      assert After(l, 1) == Ticked(After(l, 0));
    }
  }

  /** From a high wire the order of the two timers does not matter for what has arrived after the last tick. */
  lemma LoopbackRxFirst(l: Line)
    requires LineValid(l) && AtByte(l.tx, 0) && Listening(l.rx) && l.tx.level
    ensures var e := AfterRxFirst(l, TICKS * l.tx.length);
            && e.rx.received == Received(l.rx.received, l.tx.buf[..l.tx.length])
            && Listening(e.rx) && !e.tx.busy && e.tx.level
  {
    hide After, AfterRxFirst, Received;
    var n := l.tx.length;
    OneTickLater(l, TICKS * n - 1);
    LastStopBit(l);
    Loopback(l, 0);
  }

  /** The last tick of the transmitter changes nothing for the receiver. */
  lemma LastStopBit(l: Line)
    requires LineValid(l) && AtByte(l.tx, 0) && Listening(l.rx)
    ensures After(l, TICKS * l.tx.length - 1).rx == After(l, TICKS * l.tx.length).rx
  {
    hide After, Received;
    var n := l.tx.length;
    DeliveredAfter(l, n - 1);
    var m := After(l, TICKS * (n - 1));
    OneByte(m, n - 1);
    AfterSum(l, TICKS * (n - 1), 10);
    AfterSum(l, TICKS * (n - 1), 11);
    assert TICKS * (n - 1) + 10 == TICKS * n - 1 && TICKS * (n - 1) + 11 == TICKS * n;
  }

  // ---------- a wire of any levels ----------

  /** The receiver after the given levels. */
  function Heard(r: Rx, levels: seq<bool>): (s: Rx)
    requires RxValid(r)
    ensures RxValid(s)
  {
    if levels == [] then r else RxTicked(Heard(r, levels[..|levels| - 1]), levels[|levels| - 1])
  }

  /** The byte whose bits are the first k levels behind the start bit, low order first. */
  function FrameBits(levels: seq<bool>, k: nat): bv8
    requires k <= 8 && k < |levels|
  {
    if k == 0 then 0 else WithBit(FrameBits(levels, k - 1), k - 1, levels[k])
  }

  lemma {:induction false} InFrame(r: Rx, levels: seq<bool>, k: nat)
    requires Listening(r) && k <= 8 && k < |levels| && !levels[0]
    ensures Heard(r, levels[..k + 1]) == r.(start := true, bitCount := k, byte := FrameBits(levels, k))
  {
    hide WithBit;
    assert levels[..k + 1][..k] == levels[..k];
    if k == 0 {
      assert Heard(r, levels[..0]) == r;
    } else {
      InFrame(r, levels, k - 1);
    }
  }

  /** Each data level ends up in its own bit. */
  lemma FrameBit(levels: seq<bool>, k: nat)
    requires |levels| == 10 && k < 8
    ensures Bit(FrameBits(levels, 8), k) == levels[k + 1]
  {
    hide WithBit, Bit;
    EightBits(levels);
    SetBits(levels[1], levels[2], levels[3], levels[4], levels[5], levels[6], levels[7], levels[8], k);
  }

  lemma EightBits(levels: seq<bool>)
    requires |levels| == 10
    ensures FrameBits(levels, 8)
            == Eight(levels[1], levels[2], levels[3], levels[4], levels[5], levels[6], levels[7], levels[8])
  {
    hide WithBit;
    assert FrameBits(levels, 1) == WithBit(0, 0, levels[1]);
    assert FrameBits(levels, 2) == WithBit(WithBit(0, 0, levels[1]), 1, levels[2]);
    assert FrameBits(levels, 4) == WithBit(WithBit(FrameBits(levels, 2), 2, levels[3]), 3, levels[4]);
    assert FrameBits(levels, 6) == WithBit(WithBit(FrameBits(levels, 4), 4, levels[5]), 5, levels[6]);
  }

  function Eight(a: bool, b: bool, c: bool, d: bool, e: bool, f: bool, g: bool, h: bool): bv8 {
    var low := WithBit(WithBit(WithBit(WithBit(0, 0, a), 1, b), 2, c), 3, d);
    WithBit(WithBit(WithBit(WithBit(low, 4, e), 5, f), 6, g), 7, h)
  }

  lemma SetBits(a: bool, b: bool, c: bool, d: bool, e: bool, f: bool, g: bool, h: bool, k: nat)
    requires k < 8
    ensures Bit(Eight(a, b, c, d, e, f, g, h), k)
         == (match k case 0 => a case 1 => b case 2 => c case 3 => d case 4 => e case 5 => f case 6 => g case _ => h)
  {
  }

  /** Whatever the levels: a low level starts a frame, eight data levels make a byte, and the tenth decides. High, the
      byte is kept if there is room; low, it is dropped. Either way the receiver listens again. */
  lemma AnyFrame(r: Rx, levels: seq<bool>)
    requires Listening(r) && |levels| == 10 && !levels[0]
    ensures var (s, b) := (Heard(r, levels), FrameBits(levels, 8));
            && Listening(s)
            && s.received == if levels[9] && |r.received| < BUFFER_SIZE then r.received + [b] else r.received
  {
    hide FrameBits;
    InFrame(r, levels, 8);
    assert levels[..9] == levels[..|levels| - 1];
  }

  /** A high line is silence. */
  lemma {:induction false} Silence(r: Rx, levels: seq<bool>)
    requires Listening(r) && forall i | 0 <= i < |levels| :: levels[i]
    ensures Heard(r, levels) == r
  {
    if levels != [] { Silence(r, levels[..|levels| - 1]); }
  }

  // ---------- the module's state and entry points ----------

  datatype Status = Ok | Busy | InvalidParam

  class SimUart {
    const txBuf: array<bv8>
    var txIndex: nat
    var txBitPos: nat
    var txLength: nat
    var txBusy: bool
    var txEnable: bool
    var txLevel: bool
    var rxEnable: bool
    var rxStart: bool
    var rxBitCount: nat
    var rxByte: bv8
    const rxBuffer: array<bv8>
    var rxBufferIndex: nat

    ghost predicate Valid()
      reads this, txBuf, rxBuffer
    {
      && txBuf.Length == BUFFER_SIZE && rxBuffer.Length == BUFFER_SIZE && txBuf != rxBuffer
      && rxBufferIndex <= BUFFER_SIZE
      && LineValid(State())
    }

    ghost function State(): Line
      requires rxBufferIndex <= rxBuffer.Length
      reads this, txBuf, rxBuffer
    {
      Line(Tx(txBuf[..], txIndex, txBitPos, txLength, txBusy, txEnable, txLevel),
           Rx(rxEnable, rxStart, rxBitCount, rxByte, rxBuffer[..rxBufferIndex]))
    }

    /** The static initialisers and sim_uart_init, which drives the line high. */
    constructor ()
      ensures Valid() && fresh(txBuf) && fresh(rxBuffer)
      ensures Listening(State().rx) && State().rx.received == [] && !State().tx.busy && State().tx.level
    {
      txBuf := new bv8[BUFFER_SIZE];
      rxBuffer := new bv8[BUFFER_SIZE];
      txIndex, txBitPos, txLength, rxBitCount, rxBufferIndex := 0, 0, 0, 0, 0;
      txBusy, txEnable, txLevel, rxEnable, rxStart, rxByte := false, false, true, true, false, 0;
    }

    /** tx_timer_cb. */
    method TxTimer()
      requires Valid()
      modifies this
      ensures Valid() && State() == old(State()).(tx := TxTicked(old(State()).tx))
    {
      if !txEnable {
        return;
      }
      if txBitPos < START_BIT + DATA_BITS + STOP_BIT {
        var level;
        if txBitPos < START_BIT {
          level := false;
        } else if txBitPos < START_BIT + DATA_BITS {
          level := (txBuf[txIndex] >> (txBitPos - START_BIT)) & 1 == 1;
        } else {
          level := true;
        }
        txLevel := level;
        txBitPos := txBitPos + 1;
      } else {
        txBitPos := 0;
        txIndex := txIndex + 1;
        if txIndex >= txLength {
          txBusy, txEnable, txLevel := false, false, true;
        }
      }
    }

    /** rx_timer_cb; the pin is read as None when reading it fails. */
    method RxTimer(pin: Option<bool>)
      requires Valid()
      modifies this, rxBuffer
      ensures Valid()
      ensures State() == if pin.None? then old(State()) else old(State()).(rx := RxTicked(old(State()).rx, pin.value))
    {
      hide WithBit;
      if !rxEnable || pin.None? {
        return;
      }
      var bit := pin.value;
      if !rxStart {
        if !bit {
          rxStart, rxBitCount, rxByte := true, 0, 0;
        }
      } else if rxBitCount < DATA_BITS {
        rxByte := WithBit(rxByte, rxBitCount, bit);
        rxBitCount := rxBitCount + 1;
      } else if rxBitCount == DATA_BITS {
        if bit {
          if rxBufferIndex < BUFFER_SIZE {
            rxBuffer[rxBufferIndex] := rxByte;
            rxBufferIndex := rxBufferIndex + 1;
          }
          rxStart := false;
        } else {
          rxStart := false;
        }
      }
    }

    /** sim_uart_send; no data pointer is None. An accepted payload leaves the transmitter at its first byte. */
    method Send(data: Option<seq<bv8>>, length: nat) returns (status: Status)
      requires Valid() && (data.Some? ==> length <= |data.value|)
      modifies this, txBuf
      ensures Valid() && State().rx == old(State()).rx
      ensures status == if old(txBusy) then Busy
                        else if data.None? || length == 0 || length > BUFFER_SIZE then InvalidParam
                        else Ok
      ensures status != Ok ==> State() == old(State())
      ensures status == Ok ==> AtByte(State().tx, 0) && txLength == length && txBuf[..length] == data.value[..length]
      ensures txLevel == old(txLevel)
    {
      if txBusy {
        return Busy;
      }
      if data.None? || length == 0 || length > BUFFER_SIZE {
        return InvalidParam;
      }
      var i := 0;
      while i < length
        modifies txBuf
        invariant 0 <= i <= length && txBuf[..i] == data.value[..i]
      {
        txBuf[i] := data.value[i];
        i := i + 1;
      }
      txLength, txIndex, txBitPos, txBusy, txEnable := length, 0, 0, true, true;
      return Ok;
    }

    /** sim_uart_receive: what does not fit the caller's buffer is dropped. */
    method Receive(buffer: array<bv8>, maxLength: nat) returns (copied: nat)
      requires Valid() && maxLength <= buffer.Length && buffer != rxBuffer && buffer != txBuf
      modifies this, buffer
      ensures Valid() && State().tx == old(State()).tx
      ensures var r := old(State()).rx;
              && copied == (if !r.enable then 0 else if |r.received| < maxLength then |r.received| else maxLength)
              && buffer[..] == r.received[..copied] + old(buffer[copied..])
              && State().rx == if r.enable then r.(received := []) else r
    {
      if !rxEnable {
        return 0;
      }
      copied := if rxBufferIndex < maxLength then rxBufferIndex else maxLength;
      var i := 0;
      while i < copied
        modifies buffer
        invariant 0 <= i <= copied
        invariant forall k | 0 <= k < buffer.Length :: buffer[k] == if k < i then rxBuffer[k] else old(buffer[k])
      {
        buffer[i] := rxBuffer[i];
        i := i + 1;
      }
      rxBufferIndex := 0;
    }

    /** sim_uart_enable_rx. */
    method EnableRx(enable: bool)
      requires Valid()
      modifies this
      ensures Valid() && State() == old(State()).(rx := old(State()).rx.(enable := enable))
    {
      rxEnable := enable;
    }

    /** sim_uart_abort_tx. */
    method AbortTx()
      requires Valid()
      modifies this
      ensures Valid() && State() == old(State()).(tx := old(State()).tx.(enable := false, busy := false, level := true))
    {
      txEnable, txBusy, txLevel := false, false, true;
    }
  }

  /** Both timers of a looped-back module for the given number of ticks. */
  method RunLoop(u: SimUart, n: nat)
    requires u.Valid()
    modifies u, u.rxBuffer
    ensures u.Valid() && u.State() == After(old(u.State()), n)
  {
    hide TxTicked, RxTicked;
    var i := 0;
    while i < n
      invariant 0 <= i <= n
      invariant u.Valid() && u.State() == After(old(u.State()), i)
    {
      u.TxTimer();
      u.RxTimer(Some(u.txLevel));
      i := i + 1;
    }
  }
}
