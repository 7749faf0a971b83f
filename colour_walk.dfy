/** The deterministic colour walk `nextColour` of the app (src/ofApp.cpp:52-68).
    The red, green and blue channels form a cycle r -> g -> b -> r; one call moves
    three units from the first "firing" channel to its successor, in unsigned
    8-bit arithmetic, so values wrap modulo 256. */
module ColourWalk {

  /** An unsigned 8-bit channel value (uint8_t). */
  type Byte = x: int | 0 <= x < 256

  /** ofColor: four byte channels. */
  datatype Colour = Colour(r: Byte, g: Byte, b: Byte, a: Byte)

  /** COLOUR_SHIFT in nextColour. */
  const ColourShift: Byte := 3
  /** The largest channel value; a channel at this value always fires. */
  const MaxChannel: Byte := 255
  /** The colour set in setup (src/ofApp.cpp:11). */
  const Initial: Colour := Colour(255, 0, 0, 255)

  /** Channel `i` of the cycle: 0 is red, 1 green, 2 blue. */
  function Channel(c: Colour, i: nat): Byte
    requires i < 3
  {
    if i == 0 then c.r else if i == 1 then c.g else c.b
  }

  /** `c` with channel `i` replaced by `v`. */
  function WithChannel(c: Colour, i: nat, v: Byte): (d: Colour)
    requires i < 3
    ensures Channel(d, i) == v && d.a == c.a
    ensures forall j :: 0 <= j < 3 && j != i ==> Channel(d, j) == Channel(c, j)
  {
    if i == 0 then c.(r := v) else if i == 1 then c.(g := v) else c.(b := v)
  }

  /** The cyclic successor of channel `i`. */
  function Succ(i: nat): nat
    requires i < 3
  {
    (i + 1) % 3
  }

  /** uint8_t subtraction: below zero it wraps around by 256. */
  function ByteSub(x: Byte, y: Byte): Byte
  {
    if x >= y then x - y else x - y + 256
  }

  /** uint8_t addition: above 255 it wraps around by 256. */
  function ByteAdd(x: Byte, y: Byte): Byte
  {
    if x + y < 256 then x + y else x + y - 256
  }

  /** Both byte operations are arithmetic modulo 256. */
  lemma ByteArithmeticModulo(x: Byte, y: Byte)
    ensures ByteSub(x, y) == (x - y) % 256
    ensures ByteAdd(x, y) == (x + y) % 256
  {
  }

  /** The condition under which pair (i, i+1) is shifted: both channels are
      nonzero, or channel `i` is saturated. */
  predicate Fires(c: Colour, i: nat)
    requires i < 3
  {
    (Channel(c, i) != 0 && Channel(c, Succ(i)) != 0) || Channel(c, i) == MaxChannel
  }

  /** Move ColourShift from channel `i` to its successor, in byte arithmetic. */
  function Shift(c: Colour, i: nat): Colour
    requires i < 3
  {
    var j := Succ(i);
    var lowered := WithChannel(c, i, ByteSub(Channel(c, i), ColourShift));
    WithChannel(lowered, j, ByteAdd(Channel(lowered, j), ColourShift))
  }

  /** Specification of one call of nextColour: the scan over the three pairs,
      written out; the first firing pair is shifted and the scan stops. */
  function Step(c: Colour): Colour
  {
    if Fires(c, 0) then Shift(c, 0)
    else if Fires(c, 1) then Shift(c, 1)
    else if Fires(c, 2) then Shift(c, 2)
    else c
  }

  /** nextColour as the source runs it: a mutable copy whose three colour
      channels are reached through a three-slot table, scanned by a loop that
      stops at the first firing pair. */
  method NextColour(prev: Colour) returns (result: Colour)
    ensures result == Step(prev)
  {
    var channels := new Byte[3];
    channels[0], channels[1], channels[2] := prev.r, prev.g, prev.b;
    var i := 0;
    while i < 3
      invariant 0 <= i <= 3
      invariant forall k :: 0 <= k < 3 ==> channels[k] == Channel(prev, k)
      invariant forall j :: 0 <= j < i ==> !Fires(prev, j)
    {
      var next := (i + 1) % 3;
      if (channels[i] != 0 && channels[next] != 0) || channels[i] == MaxChannel {
        channels[i] := ByteSub(channels[i], ColourShift);
        channels[next] := ByteAdd(channels[next], ColourShift);
        break;
      }
      i := i + 1;
    }
    result := Colour(channels[0], channels[1], channels[2], prev.a);
  }

  /** When pair `i` is the first that fires, channel `i` goes down by 3 and its
      successor up by 3, both modulo 256; the third channel and alpha are kept. */
  lemma StepShiftsFirstFiringPair(c: Colour, i: nat)
    requires i < 3 && Fires(c, i)
    requires forall j :: 0 <= j < i ==> !Fires(c, j)
    ensures Channel(Step(c), i) == (Channel(c, i) - 3) % 256
    ensures Channel(Step(c), Succ(i)) == (Channel(c, Succ(i)) + 3) % 256
    ensures Channel(Step(c), Succ(Succ(i))) == Channel(c, Succ(Succ(i)))
    ensures Step(c).a == c.a
  {
    assert Step(c) == Shift(c, i);
    ByteArithmeticModulo(Channel(c, i), ColourShift);
    ByteArithmeticModulo(Channel(c, Succ(i)), ColourShift);
  }

  /** A colour is left unchanged exactly when no pair fires; (0,0,0) is one. */
  lemma StepFixedIffNoneFires(c: Colour)
    ensures Step(c) == c <==> forall i :: 0 <= i < 3 ==> !Fires(c, i)
  {
    if Fires(c, 0) {
      assert Step(c).r != c.r;
    } else if Fires(c, 1) {
      assert Step(c).g != c.g;
    } else if Fires(c, 2) {
      assert Step(c).b != c.b;
    }
  }

  /** The sum of the three colour channels, as integers. */
  function Sum(c: Colour): nat
  {
    c.r + c.g + c.b
  }

  /** Shifting pair `i` changes the integer sum by -256, 0 or 256. */
  lemma ShiftSum(c: Colour, i: nat)
    requires i < 3
    ensures Shift(c, i).a == c.a
    ensures Sum(Shift(c, i)) - Sum(c) in {-256, 0, 256}
    ensures Channel(c, i) >= 3 && Channel(c, Succ(i)) <= 252 ==> Sum(Shift(c, i)) == Sum(c)
  {
  }

  /** Every call keeps r + g + b modulo 256 and keeps alpha. */
  lemma StepKeepsSumModulo(c: Colour)
    ensures Sum(Step(c)) % 256 == Sum(c) % 256
    ensures Step(c).a == c.a
  {
    var i := if Fires(c, 0) then 0 else if Fires(c, 1) then 1 else 2;
    ShiftSum(c, i);
    if Step(c) != c {
      assert Step(c) == Shift(c, i);
    }
  }

  /** The byte boundary: (1,1,0) fires on red/green and red wraps below zero,
      so the integer sum jumps from 2 to 258. */
  lemma StepWrapsBelowZero(a: Byte)
    ensures Step(Colour(1, 1, 0, a)) == Colour(254, 4, 0, a)
    ensures Sum(Step(Colour(1, 1, 0, a))) == Sum(Colour(1, 1, 0, a)) + 256
  {
  }

  /** The shape of every colour reachable from Initial: the channels add up to
      255, each is a multiple of 3, and at least one is zero. */
  predicate OnWalk(c: Colour)
  {
    Sum(c) == 255 && c.r % 3 == 0 && c.g % 3 == 0 && c.b % 3 == 0
    && (c.r == 0 || c.g == 0 || c.b == 0)
  }

  /** A shift whose channels stay in range is plain integer arithmetic. */
  lemma ShiftNoWrap(c: Colour, i: nat)
    requires i < 3 && Channel(c, i) >= 3 && Channel(c, Succ(i)) <= 252
    ensures Channel(Shift(c, i), i) == Channel(c, i) - 3
    ensures Channel(Shift(c, i), Succ(i)) == Channel(c, Succ(i)) + 3
    ensures Channel(Shift(c, i), Succ(Succ(i))) == Channel(c, Succ(Succ(i)))
    ensures Shift(c, i).a == c.a
  {
  }

  /** The walk described directly, in integer arithmetic: three units move out
      of the channel that is nonzero while its cyclic predecessor is zero, into
      its successor. */
  function WalkNext(c: Colour): (d: Colour)
    requires OnWalk(c)
    ensures OnWalk(d) && d.a == c.a && d != c
  {
    if c.r != 0 && c.b == 0 then Colour(c.r - 3, c.g + 3, c.b, c.a)
    else if c.g != 0 && c.r == 0 then Colour(c.r, c.g - 3, c.b + 3, c.a)
    else Colour(c.r + 3, c.g, c.b - 3, c.a)
  }

  /** On the walk nextColour never wraps: it does exactly what WalkNext says,
      keeping the integer sum of the channels. */
  lemma StepOnWalk(c: Colour)
    requires OnWalk(c)
    ensures Step(c) == WalkNext(c)
    ensures Sum(Step(c)) == Sum(c)
  {
    if c.r != 0 && c.b == 0 {
      assert Fires(c, 0);
      ShiftNoWrap(c, 0);
    } else if c.g != 0 && c.r == 0 {
      assert !Fires(c, 0) && Fires(c, 1);
      ShiftNoWrap(c, 1);
    } else {
      assert !Fires(c, 0) && !Fires(c, 1) && Fires(c, 2);
      ShiftNoWrap(c, 2);
    }
  }

  /** The colour after `n` calls of nextColour. */
  function Iterate(c: Colour, n: nat): Colour
  {
    if n == 0 then c else Step(Iterate(c, n - 1))
  }

  /** `m + n` calls are `m` calls followed by `n` calls. */
  lemma {:induction false} IterateAdd(c: Colour, m: nat, n: nat)
    ensures Iterate(c, m + n) == Iterate(Iterate(c, m), n)
  {
    if n != 0 {
      IterateAdd(c, m, n - 1);
    }
  }

  /** Every colour reachable from Initial is on the walk, with alpha 255. */
  lemma {:induction false} Reachable(n: nat)
    ensures OnWalk(Iterate(Initial, n))
    ensures Iterate(Initial, n).a == 255
  {
    if n != 0 {
      Reachable(n - 1);
      StepOnWalk(Iterate(Initial, n - 1));
    }
  }

  /** First third of the walk: red flows into green. */
  lemma {:induction false} RedToGreen(a: Byte, k: nat)
    requires k <= 85
    ensures Iterate(Colour(255, 0, 0, a), k) == Colour(255 - 3 * k, 3 * k, 0, a)
  {
    if k != 0 {
      var j := k - 1;
      var prev := Colour(255 - 3 * j, 3 * j, 0, a);
      RedToGreen(a, j);
      assert OnWalk(prev);
      assert Iterate(Colour(255, 0, 0, a), k) == Step(prev);
      StepOnWalk(prev);
    }
  }

  /** Second third of the walk: green flows into blue. */
  lemma {:induction false} GreenToBlue(a: Byte, k: nat)
    requires k <= 85
    ensures Iterate(Colour(0, 255, 0, a), k) == Colour(0, 255 - 3 * k, 3 * k, a)
  {
    if k != 0 {
      var j := k - 1;
      var prev := Colour(0, 255 - 3 * j, 3 * j, a);
      GreenToBlue(a, j);
      assert OnWalk(prev);
      assert Iterate(Colour(0, 255, 0, a), k) == Step(prev);
      StepOnWalk(prev);
    }
  }

  /** Last third of the walk: blue flows back into red. */
  lemma {:induction false} BlueToRed(a: Byte, k: nat)
    requires k <= 85
    ensures Iterate(Colour(0, 0, 255, a), k) == Colour(3 * k, 0, 255 - 3 * k, a)
  {
    if k != 0 {
      var j := k - 1;
      var prev := Colour(3 * j, 0, 255 - 3 * j, a);
      BlueToRed(a, j);
      assert OnWalk(prev);
      assert Iterate(Colour(0, 0, 255, a), k) == Step(prev);
      StepOnWalk(prev);
    }
  }

  /** The colour after `n` calls from Initial, for each third of the cycle. */
  lemma WalkFromInitial(n: nat)
    requires n <= 255
    ensures n <= 85 ==> Iterate(Initial, n) == Colour(255 - 3 * n, 3 * n, 0, 255)
    ensures 85 <= n <= 170 ==> Iterate(Initial, n) == Colour(0, 255 - 3 * (n - 85), 3 * (n - 85), 255)
    ensures 170 <= n ==> Iterate(Initial, n) == Colour(3 * (n - 170), 0, 255 - 3 * (n - 170), 255)
  {
    if n <= 85 {
      RedToGreen(255, n);
    }
    if 85 <= n <= 170 {
      WalkSecondThird(n - 85);
    }
    if 170 <= n {
      WalkLastThird(n - 170);
    }
  }

  /** Calls 85 to 170 from Initial: green flows into blue. */
  lemma WalkSecondThird(k: nat)
    requires k <= 85
    ensures Iterate(Initial, 85 + k) == Colour(0, 255 - 3 * k, 3 * k, 255)
  {
    RedToGreen(255, 85);
    IterateAdd(Initial, 85, k);
    GreenToBlue(255, k);
  }

  /** Calls 170 to 255 from Initial: blue flows back into red. */
  lemma WalkLastThird(k: nat)
    requires k <= 85
    ensures Iterate(Initial, 170 + k) == Colour(3 * k, 0, 255 - 3 * k, 255)
  {
    WalkSecondThird(85);
    IterateAdd(Initial, 170, k);
    BlueToRed(255, k);
  }

  /** From Initial the walk passes pure green after 85 calls and pure blue
      after 170, returns to Initial after 255 calls, and not before. */
  lemma WalkCycle()
    ensures Iterate(Initial, 85) == Colour(0, 255, 0, 255)
    ensures Iterate(Initial, 170) == Colour(0, 0, 255, 255)
    ensures Iterate(Initial, 255) == Initial
    ensures forall n :: 0 < n < 255 ==> Iterate(Initial, n) != Initial
  {
    WalkFromInitial(85);
    WalkFromInitial(170);
    WalkFromInitial(255);
    forall n | 0 < n < 255
      ensures Iterate(Initial, n) != Initial
    {
      WalkFromInitial(n);
    }
  }

  /** 255 further calls from any point of the walk come back to that point. */
  lemma WalkSkipsPeriod(m: nat)
    ensures Iterate(Initial, 255 + m) == Iterate(Initial, m)
  {
    WalkLastThird(85);
    IterateAdd(Initial, 255, m);
  }

  /** Any number `q` of whole periods further on, the walk is where it was. */
  lemma {:induction false} WalkSkipsPeriods(q: nat, r: nat)
    ensures Iterate(Initial, 255 * q + r) == Iterate(Initial, r)
  {
    if q != 0 {
      var m := 255 * (q - 1) + r;
      WalkSkipsPeriods(q - 1, r);
      WalkSkipsPeriod(m);
      assert 255 * q + r == 255 + m;
    }
  }

  /** The walk from Initial is periodic with period 255. */
  lemma WalkPeriodic(n: nat)
    ensures Iterate(Initial, n) == Iterate(Initial, n % 255)
  {
    WalkSkipsPeriods(n / 255, n % 255);
    assert n == 255 * (n / 255) + n % 255;
  }
}
