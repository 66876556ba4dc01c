/** Packet-number reconstruction (analyzer/udp/internal/quic/packet_protector.go). */
module PacketNumber {
  import opened Bits

  const MAX62: int := 0x4000_0000_0000_0000

  // The window of an n-byte truncation.
  function Window(n: nat): (win: nat)
    requires 1 <= n <= 4
  {
    match n case 1 => 0x100 case 2 => 0x1_0000 case 3 => 0x100_0000 case 4 => 0x1_0000_0000
  }

  lemma {:induction false} WindowIsShift(n: nat)
    requires 1 <= n <= 4
    ensures Window(n) == Pow2(8 * n)
  {
    assert Pow2(4) == 16 && Pow2(8) == 16 * Pow2(4) by { PowStep(4); }
    PowStep(8);
    PowStep(12);
    PowStep(16);
    PowStep(20);
    PowStep(24);
    PowStep(28);
  }

  lemma {:induction false} PowStep(k: nat)
    ensures Pow2(k + 4) == 16 * Pow2(k)
  {
    assert Pow2(k + 1) == 2 * Pow2(k) && Pow2(k + 2) == 2 * Pow2(k + 1) && Pow2(k + 3) == 2 * Pow2(k + 2);
  }

  predicate Int64(x: int) { -0x8000_0000_0000_0000 <= x < 0x8000_0000_0000_0000 }

  function Decode(largest: int, truncated: nat, n: nat): nat
    requires largest >= -1 && 1 <= n <= 4
  {
    var expected := largest + 1;
    var win := Window(n);
    var hwin := win / 2;
    var mask := win - 1;
    var candidate := Or(AndNot(expected, mask), truncated);
    if candidate <= expected - hwin && candidate < MAX62 - win then candidate + win
    else if candidate > expected + hwin && candidate >= win then candidate - win
    else candidate
  }

  function Dist(a: int, b: int): nat { if a < b then b - a else a - b }

  // The numbers a truncated value can stand for.
  predicate Stands(q: int, truncated: nat, n: nat)
    requires 1 <= n <= 4
  {
    0 <= q < MAX62 && q % Window(n) == truncated
  }

  lemma {:induction false} Candidate(expected: nat, truncated: nat, n: nat)
    requires 1 <= n <= 4 && truncated < Window(n)
    ensures Or(AndNot(expected, Window(n) - 1), truncated) == expected - expected % Window(n) + truncated
  {
    hide Or, AndNot, Low, High;
    WindowIsShift(n);
    var k := 8 * n;
    LowIsMod(expected, k);
    AndNotMask(expected, k);
    LowCleared(expected, k);
    LowIsMod(truncated, k);
    OrLow(expected - Low(expected, k), truncated, k);
  }

  // Numbers with the same remainder are whole windows apart.
  lemma {:induction false} Apart(a: int, b: int, n: nat)
    requires 1 <= n <= 4 && a % Window(n) == b % Window(n)
    ensures a != b ==> Dist(a, b) >= Window(n)
  {
  }

  lemma {:induction false} SameRemainder(expected: nat, truncated: nat, n: nat)
    requires 1 <= n <= 4 && truncated < Window(n)
    ensures var win := Window(n);
            var c := expected - expected % win + truncated;
            c % win == truncated && (c + win) % win == truncated && (c - win) % win == truncated
  {
    var win := Window(n);
    var q := expected / win;
    var c := win * q + truncated;
    DivModUnique(c, win, q, truncated);
    DivModUnique(c + win, win, q + 1, truncated);
    DivModUnique(c - win, win, q - 1, truncated);
  }

  lemma {:induction false} WindowDivides(n: nat)
    requires 1 <= n <= 4
    ensures MAX62 % Window(n) == 0
  {
  }

  lemma {:induction false} CandidateBelow(expected: nat, truncated: nat, n: nat)
    requires 1 <= n <= 4 && truncated < Window(n) && expected < MAX62
    ensures 0 <= expected - expected % Window(n) + truncated < MAX62
  {
    var base := expected - expected % Window(n);
    WindowDivides(n);
    SameRemainder(expected, 0, n);
    Apart(base, MAX62, n);
  }

  // What is decoded, without bit operations.
  lemma {:induction false} DecodeIs(largest: int, truncated: nat, n: nat)
    requires -1 <= largest <= MAX62 - 2 && 1 <= n <= 4 && truncated < Window(n)
    ensures var e, win := largest + 1, Window(n);
            var c := e - e % win + truncated;
            && win % 2 == 0 && 0 < win <= MAX62 && e - win < c < e + win && 0 <= c < MAX62 && c % win == truncated
            && Decode(largest, truncated, n) ==
               if c <= e - win / 2 && c < MAX62 - win then c + win
               else if c > e + win / 2 && c >= win then c - win else c
  {
    hide Or, AndNot;
    Candidate(largest + 1, truncated, n);
    SameRemainder(largest + 1, truncated, n);
    CandidateBelow(largest + 1, truncated, n);
  }

  lemma {:induction false} DecodeStands(largest: int, truncated: nat, n: nat)
    requires -1 <= largest <= MAX62 - 2 && 1 <= n <= 4 && truncated < Window(n)
    ensures Stands(Decode(largest, truncated, n), truncated, n)
  {
    hide Decode, Window;
    DecodeIs(largest, truncated, n);
    SameRemainder(largest + 1, truncated, n);
  }

  // Arithmetic of the two corrections: c is the candidate in the window of the expected number,
  // and q any number at least a window away from what it is compared with.
  lemma {:induction false} Nearer(expected: int, win: nat, c: int, r: int, q: int)
    requires win > 0 && win % 2 == 0 && 0 <= expected && win <= MAX62
    requires expected - win < c < expected + win && 0 <= c && 0 <= q < MAX62
    requires r == if c <= expected - win / 2 && c < MAX62 - win then c + win
                  else if c > expected + win / 2 && c >= win then c - win else c
    requires q == c || q >= c + win || q <= c - win
    ensures Dist(r, expected) <= Dist(q, expected)
  {
  }

  // The decoded number is one the truncated value can stand for, and none of those is nearer
  // to the expected number.
  lemma {:induction false} DecodeNearest(largest: int, truncated: nat, n: nat)
    requires -1 <= largest <= MAX62 - 2 && 1 <= n <= 4 && truncated < Window(n)
    ensures Stands(Decode(largest, truncated, n), truncated, n)
    ensures forall q :: Stands(q, truncated, n) ==>
              Dist(Decode(largest, truncated, n), largest + 1) <= Dist(q, largest + 1)
  {
    DecodeStands(largest, truncated, n);
    forall q | Stands(q, truncated, n)
      ensures Dist(Decode(largest, truncated, n), largest + 1) <= Dist(q, largest + 1)
    {
      DecodeNearestTo(largest, truncated, n, q);
    }
  }

  lemma {:induction false} DecodeNearestTo(largest: int, truncated: nat, n: nat, q: int)
    requires -1 <= largest <= MAX62 - 2 && 1 <= n <= 4 && truncated < Window(n) && Stands(q, truncated, n)
    ensures Dist(Decode(largest, truncated, n), largest + 1) <= Dist(q, largest + 1)
  {
    hide Decode, Window;
    var expected := largest + 1;
    var c := expected - expected % Window(n) + truncated;
    DecodeIs(largest, truncated, n);
    if q != c {
      Apart(q, c, n);
    }
    Nearer(expected, Window(n), c, Decode(largest, truncated, n), q);
  }

  // Within half a window of the expected number, the upper end included; or as close to an end of
  // the number space as a window, when no other number that it could be is there.
  predicate Recovered(expected: int, pn: int, n: nat)
    requires 1 <= n <= 4
  {
    var win := Window(n);
    || expected - win / 2 < pn <= expected + win / 2
    || expected + win / 2 < pn < win
    || MAX62 - win <= pn <= expected - win / 2
  }

  // A number is recovered from its last digits exactly then.
  lemma {:induction false} DecodeExact(largest: int, pn: int, n: nat)
    requires -1 <= largest <= MAX62 - 2 && 1 <= n <= 4 && 0 <= pn < MAX62
    ensures Decode(largest, pn % Window(n), n) == pn <==> Recovered(largest + 1, pn, n)
  {
    var expected, win := largest + 1, Window(n);
    var t := pn % win;
    var c := expected - expected % win + t;
    DecodeIs(largest, t, n);
    WholeWindows(pn, c, win);
    hide Decode, Window;
    if MAX62 - win <= pn <= expected - win / 2 {
      WindowDivides(n);
      LastWindow(expected, pn, win);
    }
    if expected + win / 2 < pn < win {
      FirstWindow(expected, pn, win);
    }
    Exactly(expected, win, c, Decode(largest, t, n), pn);
  }

  // The arithmetic of the corrections again, now for a number whole windows away from the candidate.
  lemma {:induction false} Exactly(expected: int, win: nat, c: int, r: int, pn: int)
    requires win > 0 && win % 2 == 0 && 0 <= expected < MAX62 && win <= MAX62
    requires expected - win < c < expected + win && 0 <= c < MAX62 && 0 <= pn < MAX62
    requires r == if c <= expected - win / 2 && c < MAX62 - win then c + win
                  else if c > expected + win / 2 && c >= win then c - win else c
    requires pn == c || pn == c + win || pn == c - win || pn >= c + 2 * win || pn <= c - 2 * win
    requires MAX62 - win <= pn <= expected - win / 2 || expected + win / 2 < pn < win ==> c == pn
    ensures r == pn <==>
              || expected - win / 2 < pn <= expected + win / 2
              || expected + win / 2 < pn < win
              || MAX62 - win <= pn <= expected - win / 2
  {
  }

  lemma {:induction false} WholeWindows(a: int, b: int, win: nat)
    requires win > 0 && a % win == b % win
    ensures a == b || a == b + win || a == b - win || a >= b + 2 * win || a <= b - 2 * win
  {
    var q := a / win - b / win;
    assert a - b == win * q;
    if q >= 2 {
      assert win * q >= win * 2;
    } else if q <= -2 {
      assert win * q <= win * -2;
    }
  }

  lemma {:induction false} FirstWindow(expected: int, pn: int, win: nat)
    requires win > 0 && 0 <= expected < win && 0 <= pn < win
    ensures expected - expected % win + pn % win == pn
  {
  }

  // Two numbers of the last window.
  lemma {:induction false} LastWindow(expected: int, pn: int, win: nat)
    requires 0 < win <= MAX62 && MAX62 % win == 0 && MAX62 - win <= pn <= expected < MAX62
    ensures expected - expected % win + pn % win == pn
  {
    var q := MAX62 / win;
    DivModUnique(expected, win, q - 1, expected - (MAX62 - win));
    DivModUnique(pn, win, q - 1, pn - (MAX62 - win));
  }

  // No intermediate value leaves the range of a signed 64-bit integer.
  lemma {:induction false} DecodeFits(largest: int, truncated: nat, n: nat)
    requires -1 <= largest <= MAX62 - 2 && 1 <= n <= 4 && truncated < Window(n)
    ensures var expected, win := largest + 1, Window(n);
            var candidate := Or(AndNot(expected, win - 1), truncated);
            && Int64(expected - win / 2) && Int64(expected + win / 2) && Int64(MAX62 - win)
            && Int64(candidate) && Int64(candidate + win) && Int64(candidate - win)
  {
    Candidate(largest + 1, truncated, n);
    CandidateBelow(largest + 1, truncated, n);
  }
}
