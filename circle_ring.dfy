/** The bounded, newest-first history of circles that `ofApp::draw` keeps in a
    deque (src/ofApp.cpp:72-84, src/ofApp.h:9-12, 44-46). */
module CircleRing {
  import opened ColourWalk

  /** MAX_CIRCLES. */
  const MaxCircles: nat := 40

  /** A circle: its size (a float computed from the loudness, kept opaque
      here) and its colour. */
  datatype Circle = Circle(size: real, colour: Colour)

  /** push_front of `c`, then pop_back when the deque has grown past
      MaxCircles. */
  function Pushed(ring: seq<Circle>, c: Circle): seq<Circle>
  {
    var s := [c] + ring;
    if |s| > MaxCircles then s[..|s| - 1] else s
  }

  /** The circle at position `k` with its alpha replaced by `alphaAt(k)`. */
  function FadeAt(ring: seq<Circle>, k: nat, alphaAt: nat -> Byte): Circle
    requires k < |ring|
  {
    ring[k].(colour := ring[k].colour.(a := alphaAt(k)))
  }

  /** The draw loop's rewrite: every stored circle gets the alpha of its
      position; `alphaAt` stands for the float `255 * (1 - i / MAX_CIRCLES)`
      converted to a byte. */
  function Faded(ring: seq<Circle>, alphaAt: nat -> Byte): seq<Circle>
  {
    seq(|ring|, k requires 0 <= k < |ring| => FadeAt(ring, k, alphaAt))
  }

  /** After a push onto a ring within the bound, the ring holds
      min(old + 1, MaxCircles) circles, the new one first and the previous
      ones after it in their order; what was dropped, if anything, is the
      back (oldest) one. */
  lemma PushedShape(ring: seq<Circle>, c: Circle)
    requires |ring| <= MaxCircles
    ensures |Pushed(ring, c)| == if |ring| < MaxCircles then |ring| + 1 else MaxCircles
    ensures Pushed(ring, c)[0] == c
    ensures forall k :: 1 <= k < |Pushed(ring, c)| ==> Pushed(ring, c)[k] == ring[k - 1]
    ensures Pushed(ring, c) == ([c] + ring)[..|Pushed(ring, c)|]
    ensures |ring| == MaxCircles ==> Pushed(ring, c) == [c] + ring[..|ring| - 1]
  {
  }

  /** Two circles that agree in everything but alpha. */
  predicate SameButAlpha(x: Circle, y: Circle)
  {
    x.size == y.size && x.colour.r == y.colour.r && x.colour.g == y.colour.g && x.colour.b == y.colour.b
  }

  /** The alpha rewrite keeps the number of circles and each circle's size
      and r, g, b; only alpha changes, to the value for its position. */
  lemma FadedKeepsCircles(ring: seq<Circle>, alphaAt: nat -> Byte)
    ensures |Faded(ring, alphaAt)| == |ring|
    ensures forall k :: 0 <= k < |ring| ==>
      SameButAlpha(Faded(ring, alphaAt)[k], ring[k]) && Faded(ring, alphaAt)[k].colour.a == alphaAt(k)
  {
  }

  /** One draw tick on a ring within the bound: the new circle is at the
      front with its size and r, g, b, the earlier circles follow in their
      order with their size and r, g, b, at most the oldest is gone, and every
      circle carries the alpha of its position. */
  lemma TickKeepsHistory(ring: seq<Circle>, c: Circle, alphaAt: nat -> Byte)
    requires |ring| <= MaxCircles
    ensures var t := Faded(Pushed(ring, c), alphaAt);
      |t| == (if |ring| < MaxCircles then |ring| + 1 else MaxCircles)
      && SameButAlpha(t[0], c)
      && (forall k :: 1 <= k < |t| ==> SameButAlpha(t[k], ring[k - 1]))
      && (forall k :: 0 <= k < |t| ==> t[k].colour.a == alphaAt(k))
  {
    PushedShape(ring, c);
    FadedKeepsCircles(Pushed(ring, c), alphaAt);
  }

  /** A draw tick keeps every stored colour on the colour walk when the new
      circle's colour is on it: alpha does not take part in the walk. */
  lemma TickStaysOnWalk(ring: seq<Circle>, c: Circle, alphaAt: nat -> Byte)
    requires |ring| <= MaxCircles
    requires OnWalk(c.colour)
    requires forall k :: 0 <= k < |ring| ==> OnWalk(ring[k].colour)
    ensures forall k :: 0 <= k < |Faded(Pushed(ring, c), alphaAt)| ==>
      OnWalk(Faded(Pushed(ring, c), alphaAt)[k].colour)
  {
    TickKeepsHistory(ring, c, alphaAt);
  }

  /** `s` in reverse order. */
  function Reverse<T>(s: seq<T>): (r: seq<T>)
    ensures |r| == |s|
  {
    if s == [] then [] else Reverse(s[1..]) + [s[0]]
  }

  /** The ring after pushing the circles of `cs`, first to last. */
  function PushAll(ring: seq<Circle>, cs: seq<Circle>): seq<Circle>
    decreases |cs|
  {
    if cs == [] then ring else PushAll(Pushed(ring, cs[0]), cs[1..])
  }

  /** Cutting `b` to `m` elements does not change the first `n` elements of
      `a + b` when `n` stays within `a` and the cut part. */
  lemma PrefixOfPrefix<T>(a: seq<T>, b: seq<T>, m: nat, n: nat)
    requires m <= |b| && n <= |a| + m
    ensures (a + b[..m])[..n] == (a + b)[..n]
  {
    assert forall k :: 0 <= k < n ==> (a + b[..m])[k] == (a + b)[k];
  }

  /** However many circles are pushed onto a ring within the bound, it holds
      the newest MaxCircles circles of everything pushed, newest first. */
  lemma {:induction false} PushAllKeepsNewest(ring: seq<Circle>, cs: seq<Circle>)
    requires |ring| <= MaxCircles
    ensures var n := |cs| + |ring|;
      PushAll(ring, cs) == (Reverse(cs) + ring)[..if n < MaxCircles then n else MaxCircles]
    decreases |cs|
  {
    if cs == [] {
      assert (Reverse(cs) + ring) == ring;
    } else {
      var c, rest := cs[0], cs[1..];
      var p := Pushed(ring, c);
      PushedShape(ring, c);
      var n := if |rest| + |p| < MaxCircles then |rest| + |p| else MaxCircles;
      calc {
        PushAll(ring, cs);
        PushAll(p, rest);
        { PushAllKeepsNewest(p, rest); }
        (Reverse(rest) + p)[..n];
        (Reverse(rest) + ([c] + ring)[..|p|])[..n];
        { PrefixOfPrefix(Reverse(rest), [c] + ring, |p|, n); }
        (Reverse(rest) + ([c] + ring))[..n];
        { assert Reverse(rest) + ([c] + ring) == Reverse(cs) + ring; }
        (Reverse(cs) + ring)[..n];
      }
    }
  }

  /** Pushing 45 circles onto an empty ring leaves exactly 40: the last 40
      pushed, newest first; the 5 oldest are evicted. */
  lemma FortyFivePushes(cs: seq<Circle>)
    requires |cs| == 45
    ensures |PushAll([], cs)| == 40
    ensures PushAll([], cs) == Reverse(cs[5..])
  {
    PushAllKeepsNewest([], cs);
    ReverseSuffix(cs, 5);
  }

  /** The first |s| - n elements of Reverse(s) are Reverse(s[n..]). */
  lemma {:induction false} ReverseSuffix<T>(s: seq<T>, n: nat)
    requires n <= |s|
    ensures Reverse(s)[..|s| - n] == Reverse(s[n..])
  {
    if n != 0 {
      ReverseSuffix(s[1..], n - 1);
      assert s[1..][n - 1..] == s[n..];
      assert Reverse(s)[..|s| - n] == Reverse(s[1..])[..|s| - n];
    }
  }
}
