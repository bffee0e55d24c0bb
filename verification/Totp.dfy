/** One-time passwords of `src/totp.rs`, and the clock offset that `src/client.rs` feeds them. */
module Totp {
  import opened Bits
  import opened Bytes

  const TIME_STEP: nat := 30
  const DIGITS: nat := 6
  const NANOS: nat := 1_000_000_000
  const I32_MAX: nat := 0x7fff_ffff

  type Sha1 = s: seq<Byte> | |s| == 20 witness seq(20, _ => 0)

  function Power10(n: nat): (r: nat)
    ensures r > 0
  {
    if n == 0 then 1 else 10 * Power10(n - 1)
  }

  function Hotp(key: seq<Byte>, counter: nat, digits: nat, hmacSha1: (seq<Byte>, seq<Byte>) -> Sha1): nat {
    var hmac := hmacSha1(key, BigEndian(counter, 8));
    LowBitsOfByte(hmac[19]);
    var offset := And(hmac[19], 0xf);
    And(FromBigEndian(hmac[offset..offset + 4]), 0x7fff_ffff) % Power10(digits)
  }

  datatype TotpSlot = TotpSlot(code: nat, secsLeft: nat)

  /** Division that rounds toward zero, for a positive divisor. */
  function DivTowardZero(a: int, b: nat): int
    requires b > 0
  {
    if a >= 0 then a / b else -(-a / b)
  }

  /** `now` is in nanoseconds since the epoch; a negative slot wraps into the unsigned counter. */
  function Slot(now: nat, slotOffset: int): int {
    now / NANOS / TIME_STEP + slotOffset
  }

  function TotpOffset(key: seq<Byte>, now: nat, slotOffset: int, hmacSha1: (seq<Byte>, seq<Byte>) -> Sha1): TotpSlot {
    TotpSlot(Hotp(key, Slot(now, slotOffset) % U64_RANGE, DIGITS, hmacSha1),
             TIME_STEP - now / NANOS % TIME_STEP)
  }

  /** The client's idea of how far the server's clock is ahead, in whole seconds; too far counts as none. */
  function DateOffset(now: nat, date: nat): int {
    if now < date then
      var secs := (date - now) / NANOS;
      if secs <= I32_MAX then secs else 0
    else
      var secs := (now - date) / NANOS;
      if secs <= I32_MAX then -secs else 0
  }

  /** The slot offset handed to `totp_offset`. */
  function SlotOffset(dateOffset: int): int {
    DivTowardZero(dateOffset, TIME_STEP)
  }

  // ----- Truncation

  /** Masking with `k` ones keeps the low `k` bits. */
  lemma {:induction false} LowBits(x: nat, k: nat)
    ensures And(x, Pow2(k) - 1) + Scale(High(x, k), k) == x
    ensures And(x, Pow2(k) - 1) < Pow2(k)
  {
    if k > 0 {
      LowBits(x / 2, k - 1);
      OneBitMore(x, k);
    }
  }

  lemma OneBitMore(x: nat, k: nat)
    requires k > 0
    ensures Pow2(k) == 2 * Pow2(k - 1)
    ensures And(x, Pow2(k) - 1) == x % 2 + 2 * And(x / 2, Pow2(k - 1) - 1)
    ensures Scale(High(x, k), k) == 2 * Scale(High(x / 2, k - 1), k - 1)
  {
    HighOfHalf(x, k - 1);
    AndOdd(x, Pow2(k - 1) - 1);
  }

  lemma FourMoreBits(k: nat)
    ensures Pow2(k + 4) == 16 * Pow2(k)
  {
    assert Pow2(k + 1) == 2 * Pow2(k);
    assert Pow2(k + 2) == 2 * Pow2(k + 1);
    assert Pow2(k + 3) == 2 * Pow2(k + 2);
    assert Pow2(k + 4) == 2 * Pow2(k + 3);
  }

  lemma LowBitsOfByte(x: nat)
    ensures And(x, 0xf) == x % 16
  {
    LowBits(x, 4);
    ScaleIsProduct(High(x, 4), 4);
    FourMoreBits(0);
    RemainderOfByte(High(x, 4), And(x, 0xf));
  }

  lemma RemainderOfByte(high: nat, low: nat)
    requires low < 16
    ensures (16 * high + low) % 16 == low
  {
  }

  lemma LowBitsOfWord(x: nat)
    ensures And(x, 0x7fff_ffff) == x % 0x8000_0000
  {
    LowBits(x, 31);
    ScaleIsProduct(High(x, 31), 31);
    BitThirtyOne();
    RemainderOfWord(High(x, 31), And(x, 0x7fff_ffff));
  }

  lemma RemainderOfWord(high: nat, low: nat)
    requires low < 0x8000_0000
    ensures (0x8000_0000 * high + low) % 0x8000_0000 == low
  {
  }

  lemma BitThirtyOne()
    ensures Pow2(31) == 0x8000_0000
  {
    assert Pow2(3) == 8;
    FourMoreBits(3);
    FourMoreBits(7);
    FourMoreBits(11);
    FourMoreBits(15);
    FourMoreBits(19);
    FourMoreBits(23);
    FourMoreBits(27);
  }

  /**
   The code is the dynamic truncation of section 5.3 of RFC 4226: the low four bits of the last byte
   pick four bytes, the top bit of the first is dropped, and the last six decimal digits remain.
   */
  lemma HotpIsDynamicTruncation(key: seq<Byte>, counter: nat, hmacSha1: (seq<Byte>, seq<Byte>) -> Sha1)
    ensures var h := hmacSha1(key, BigEndian(counter, 8));
            var o := h[19] % 16;
            var (p0: nat, p1: nat, p2: nat, p3: nat) := (h[o] % 128, h[o + 1], h[o + 2], h[o + 3]);
            Hotp(key, counter, DIGITS, hmacSha1) == (p0 * 0x100_0000 + p1 * 0x1_0000 + p2 * 0x100 + p3) % 1_000_000
  {
    var h := hmacSha1(key, BigEndian(counter, 8));
    LowBitsOfByte(h[19]);
    var o := h[19] % 16;
    var window := h[o..o + 4];
    FourBytes(window);
    LowBitsOfWord(FromBigEndian(window));
    DropTopBit(window[0], window[1], window[2], window[3]);
    assert Power10(6) == 1_000_000;
  }

  lemma FourBytes(w: seq<Byte>)
    requires |w| == 4
    ensures var (p0: nat, p1: nat, p2: nat, p3: nat) := (w[0], w[1], w[2], w[3]);
            FromBigEndian(w) == p0 * 0x100_0000 + p1 * 0x1_0000 + p2 * 0x100 + p3
  {
    assert w[..3][..2] == w[..2] && w[..2][..1] == w[..1] && w[..1][..0] == [];
    assert FromBigEndian(w[..1]) == w[0];
    assert FromBigEndian(w[..2]) == 256 * FromBigEndian(w[..1]) + w[1] as int;
    assert FromBigEndian(w[..3]) == 256 * FromBigEndian(w[..2]) + w[2] as int;
  }

  lemma DropTopBit(p0: nat, p1: nat, p2: nat, p3: nat)
    requires p0 < 256 && p1 < 256 && p2 < 256 && p3 < 256
    ensures (p0 * 0x100_0000 + p1 * 0x1_0000 + p2 * 0x100 + p3) % 0x8000_0000
         == p0 % 128 * 0x100_0000 + p1 * 0x1_0000 + p2 * 0x100 + p3
  {
  }

  // ----- Clocks

  /** Nanoseconds in one slot. */
  const SLOT: int := 30_000_000_000

  lemma SlotOfNanos(t: nat)
    ensures t / NANOS / TIME_STEP == t / SLOT
  {
  }

  /**
   The counter stays the same up to the end of the slot, to the nanosecond, and then moves on by one.
   `secsLeft` is the rest of the slot in seconds, rounded up.
   */
  lemma CodeLifetime(key: seq<Byte>, now: nat, slotOffset: int, delay: nat, hmacSha1: (seq<Byte>, seq<Byte>) -> Sha1)
    ensures var slot, rest := TotpOffset(key, now, slotOffset, hmacSha1), SLOT - now % SLOT;
            && 1 <= slot.secsLeft <= TIME_STEP && (slot.secsLeft - 1) * NANOS < rest <= slot.secsLeft * NANOS
            && (Slot(now + delay, slotOffset) == Slot(now, slotOffset) <==> delay < rest)
            && (delay == rest ==> Slot(now + delay, slotOffset) == Slot(now, slotOffset) + 1)
            && (delay < rest ==> TotpOffset(key, now + delay, slotOffset, hmacSha1).code == slot.code)
  {
    SlotOfNanos(now);
    SlotOfNanos(now + delay);
    RestOfSlot(now);
  }

  lemma RestOfSlot(now: nat)
    ensures var secsLeft := TIME_STEP - now / NANOS % TIME_STEP;
            1 <= secsLeft <= TIME_STEP && (secsLeft - 1) * NANOS < SLOT - now % SLOT <= secsLeft * NANOS
  {
    var secs := now / NANOS;
    assert secs == secs / TIME_STEP * TIME_STEP + secs % TIME_STEP;
    assert now == secs * NANOS + now % NANOS;
    SlotOfNanos(now);
  }

  /**
   The server's slot when the client's clock shows `later`, if its clock showed `truth` when the client's
   showed `now`.
   */
  function ServerSlot(now: nat, truth: nat, later: nat): int {
    (truth + (later - now)) / SLOT
  }

  /** The client's slot, from the `Date` header it read at `now`. */
  function ClientSlot(now: nat, date: nat, later: nat): int {
    Slot(later, SlotOffset(DateOffset(now, date)))
  }

  /** How many slots the server is ahead of the client. */
  function Lag(now: nat, date: nat, truth: nat, later: nat): int {
    ServerSlot(now, truth, later) - ClientSlot(now, date, later)
  }

  /** What the client's slot offset leaves of the distance of the two clocks. */
  function Skew(now: nat, date: nat, truth: nat): int {
    truth - now - SlotOffset(DateOffset(now, date)) * SLOT
  }

  lemma WholeSlots(t: int, n: int)
    ensures (t + n * SLOT) / SLOT == t / SLOT + n
  {
  }

  lemma SlotIsMonotone(t: int, u: int)
    requires t <= u
    ensures t / SLOT <= u / SLOT
  {
  }

  lemma LagIsSkew(now: nat, date: nat, truth: nat, later: nat)
    ensures Lag(now, date, truth, later) == (later + Skew(now, date, truth)) / SLOT - later / SLOT
  {
    SlotOfNanos(later);
    WholeSlots(later + Skew(now, date, truth), SlotOffset(DateOffset(now, date)));
  }

  /** A shift by at most `below` slots back and `above` slots on changes the slot by no more than that. */
  lemma SmallShift(t: int, shift: int, below: int, above: int)
    requires -below * SLOT <= shift <= above * SLOT
    ensures -below <= (t + shift) / SLOT - t / SLOT <= above
  {
    WholeSlots(t, -below);
    WholeSlots(t, above);
    SlotIsMonotone(t + -below * SLOT, t + shift);
    SlotIsMonotone(t + shift, t + above * SLOT);
  }

  /** A shift by more than a slot changes the slot by two, for the first or the last moment of some slot. */
  lemma LargeShift(slot: nat, shift: int)
    ensures shift > SLOT ==> (slot * SLOT + (SLOT - 1) + shift) / SLOT - (slot * SLOT + (SLOT - 1)) / SLOT >= 2
    ensures shift < -SLOT ==> (slot * SLOT + shift) / SLOT - slot * SLOT / SLOT <= -2
  {
    WholeSlots(SLOT - 1, slot);
    WholeSlots(0, slot);
    WholeSlots(0, slot + 2);
    WholeSlots(-1, slot - 1);
    if shift > SLOT {
      SlotIsMonotone((slot + 2) * SLOT, slot * SLOT + (SLOT - 1) + shift);
    } else if shift < -SLOT {
      SlotIsMonotone(slot * SLOT + shift, -1 + (slot - 1) * SLOT);
    }
  }

  /** From `now` on the client stays within one slot of the server. */
  ghost predicate InStep(now: nat, date: nat, truth: nat) {
    forall later: nat :: now <= later ==> -1 <= Lag(now, date, truth, later) <= 1
  }

  /**
   For every header, however old and however wrong: the client stays within one slot of the server exactly
   when its slot offset is within one slot of the distance of the two clocks.
   */
  lemma DriftBound(now: nat, date: nat, truth: nat)
    ensures InStep(now, date, truth) <==> -SLOT <= Skew(now, date, truth) <= SLOT
  {
    var skew, first := Skew(now, date, truth), (now / SLOT + 1) * SLOT;
    if -SLOT <= skew <= SLOT {
      forall later: nat | now <= later
        ensures -1 <= Lag(now, date, truth, later) <= 1
      {
        LagIsSkew(now, date, truth, later);
        SmallShift(later, skew, 1, 1);
      }
    } else {
      LargeShift(now / SLOT + 1, skew);
      LagIsSkew(now, date, truth, first);
      LagIsSkew(now, date, truth, first + (SLOT - 1));
    }
  }

  /** The distance of the client's clock and the header, in whole seconds, fits the `i32` it is kept in. */
  predicate OffsetFits(now: nat, date: nat) {
    (if now < date then date - now else now - date) / NANOS <= I32_MAX
  }

  /** The largest distances that fit: 2147483647 seconds and a fraction, in either direction. */
  lemma OffsetLimits(now: nat, distance: nat)
    requires distance <= now
    ensures OffsetFits(now, now + distance) <==> distance < 2_147_483_648_000_000_000
    ensures OffsetFits(now, now - distance) <==> distance < 2_147_483_648_000_000_000
  {
  }

  /**
   `truth - date` is the age of the header: the part of a second it drops and the time it travelled. The
   slot offset drops part of a slot, too: with a header ahead of the client this adds to the age, and
   otherwise it makes up for some of it.
   */
  lemma SkewOfHeader(now: nat, date: nat, truth: nat)
    requires OffsetFits(now, date)
    ensures Skew(now, date, truth)
         == truth - date + if now < date then (date - now) % SLOT else -((now - date) % SLOT)
  {
    SlotOfNanos(if now < date then date - now else now - date);
  }

  /** The condition of `DriftBound` in terms of the header, for any age that is not absurd (68 years). */
  lemma InStepIffFresh(now: nat, date: nat, truth: nat)
    requires date <= truth <= date + I32_MAX * NANOS - SLOT
    ensures InStep(now, date, truth) <==>
            && OffsetFits(now, date)
            && truth - date + (if now < date then (date - now) % SLOT else -((now - date) % SLOT)) <= SLOT
  {
    DriftBound(now, date, truth);
    if OffsetFits(now, date) {
      SkewOfHeader(now, date, truth);
    } else {
      assert DateOffset(now, date) == 0;
    }
  }

  /** The header of a server whose clock shows `truth`, when it arrives at once: whole seconds. */
  function HttpDate(truth: nat): (date: nat)
    ensures date <= truth < date + NANOS
  {
    truth / NANOS * NANOS
  }

  /**
   A header up to one slot old, and an offset that fits. If it is ahead of the client's clock, the client
   never runs ahead and is at most two slots behind; otherwise it is within one slot.
   */
  lemma DriftSign(now: nat, date: nat, truth: nat, later: nat)
    requires OffsetFits(now, date) && date <= truth <= date + SLOT
    ensures now < date ==> 0 <= Lag(now, date, truth, later) <= 2
    ensures date <= now ==> -1 <= Lag(now, date, truth, later) <= 1
  {
    LagIsSkew(now, date, truth, later);
    SkewOfHeader(now, date, truth);
    SmallShift(later, Skew(now, date, truth), if now < date then 0 else 1, if now < date then 2 else 1);
  }

  /** Client 0.9 s, server 30.95 s, header 30 s: at 29.96 s the client is two slots behind. */
  lemma HeaderCanCostASlot()
    ensures var (now: nat, truth: nat, later: nat) := (900_000_000, 30_950_000_000, 29_960_000_000);
            && HttpDate(truth) == 30 * NANOS && OffsetFits(now, HttpDate(truth))
            && Lag(now, HttpDate(truth), truth, later) == 2
  {
  }

  /** The code of a slot. */
  function CodeOf(key: seq<Byte>, slot: int, hmacSha1: (seq<Byte>, seq<Byte>) -> Sha1): nat {
    Hotp(key, slot % U64_RANGE, DIGITS, hmacSha1)
  }

  /** The code offered at `later` has six digits and is the server's for its current slot or a neighbouring one. */
  lemma CodeIsWithinOneSlot(
    key: seq<Byte>, now: nat, date: nat, truth: nat, later: nat, hmacSha1: (seq<Byte>, seq<Byte>) -> Sha1)
    requires -SLOT <= Skew(now, date, truth) <= SLOT && now <= later
    ensures var code := TotpOffset(key, later, SlotOffset(DateOffset(now, date)), hmacSha1).code;
            var server := ServerSlot(now, truth, later);
            && code < 1_000_000
            && (|| code == CodeOf(key, server - 1, hmacSha1)
                || code == CodeOf(key, server, hmacSha1)
                || code == CodeOf(key, server + 1, hmacSha1))
  {
    DriftBound(now, date, truth);
    CodeOfClientSlot(key, later, SlotOffset(DateOffset(now, date)), hmacSha1);
    var d := Lag(now, date, truth, later);
    assert d == -1 || d == 0 || d == 1;
  }

  lemma CodeOfClientSlot(key: seq<Byte>, later: nat, slotOffset: int, hmacSha1: (seq<Byte>, seq<Byte>) -> Sha1)
    ensures TotpOffset(key, later, slotOffset, hmacSha1).code == CodeOf(key, Slot(later, slotOffset), hmacSha1) < 1_000_000
  {
    HotpIsDynamicTruncation(key, Slot(later, slotOffset) % U64_RANGE, hmacSha1);
  }
}
