/**
  Queue ticket file names (src/execution-slots.js).  A lane's head is found by listing the
  queue directory, keeping the names that start with the lane's prefix, sorting them as
  strings and taking the first.  The prefix of the plain interactive lane also matches the
  tickets of the light and weighted interactive lanes, so that the string order really
  selects the least sequence number of the lane needs proof.
 */
module TicketNames {
  import opened Common
  import opened SlotPlan


  datatype Lane = WatchLane | BackgroundLane | InteractiveLane | LightLane | WeightedLane

  /** The lane a request queues in. */
  function LaneFor(kind: Kind, resource: ResourceClass, pressure: bool): Lane {
    if PoolFor(kind, resource) == WatchPool then WatchLane
    else if kind != Interactive then BackgroundLane
    else if !pressure then InteractiveLane
    else if Weighted(resource) then WeightedLane
    else LightLane
  }

  function LaneText(lane: Lane): string {
    match lane
    case WatchLane => "watch"
    case BackgroundLane => "execution-background"
    case InteractiveLane => "execution-interactive"
    case LightLane => "execution-interactive-light"
    case WeightedLane => "execution-interactive-weighted"
  }

  function Prefix(lane: Lane): string { LaneText(lane) + "-" }

  // ---------------------------------------------------------------------------------------
  // Decimal text

  const WIDTH := 32

  function Pow10(k: nat): nat { if k == 0 then 1 else 10 * Pow10(k - 1) }

  /** Sequence numbers stay below this, so that their padded text has a fixed width. */
  const LIMIT: nat := Pow10(WIDTH)

  function Digit(d: nat): char
    requires d < 10
  {
    '0' + d as char
  }

  function Decimal(n: nat): string {
    if n < 10 then [Digit(n)] else Decimal(n / 10) + [Digit(n % 10)]
  }

  function PadStart(s: string, width: nat): string
    decreases width - |s|
  {
    if |s| >= width then s else PadStart("0" + s, width)
  }

  /** The last k decimal digits of n. */
  ghost function LastDigits(n: nat, k: nat): (s: string)
    ensures |s| == k
    ensures forall i :: 0 <= i < k ==> '0' <= s[i] <= '9'
  {
    if k == 0 then "" else LastDigits(n / 10, k - 1) + [Digit(n % 10)]
  }

  lemma {:induction false} LastDigitsPad(n: nat, k: nat)
    requires n < 10
    ensures LastDigits(n, k + 1) == LastDigits(0, k) + [Digit(n)]
    ensures LastDigits(0, k + 1) == "0" + LastDigits(0, k)
  {
    if k > 0 {
      LastDigitsPad(0, k - 1);
      assert LastDigits(0, k + 1) == LastDigits(0, k) + [Digit(0)];
      assert "0" + LastDigits(0, k - 1) + [Digit(0)] == "0" + (LastDigits(0, k - 1) + [Digit(0)]);
    }
  }

  lemma {:induction false} PadStartZeros(s: string, width: nat)
    requires |s| <= width
    ensures PadStart(s, width) == LastDigits(0, width - |s|) + s
    decreases width - |s|
  {
    if |s| < width {
      PadStartZeros("0" + s, width);
      var k := width - |s| - 1;
      LastDigitsPad(0, k);
      assert LastDigits(0, k) + "0" == LastDigits(0, k + 1);
      assert LastDigits(0, k) + ("0" + s) == (LastDigits(0, k) + "0") + s;
    }
  }

  lemma {:induction false} DecimalFits(n: nat, k: nat)
    requires k > 0 && n < Pow10(k)
    ensures |Decimal(n)| <= k
    ensures LastDigits(n, k) == LastDigits(0, k - |Decimal(n)|) + Decimal(n)
  {
    if n < 10 {
      LastDigitsPad(n, k - 1);
    } else {
      assert k > 1;
      DecimalFits(n / 10, k - 1);
      var short := Decimal(n / 10);
      assert k - |Decimal(n)| == k - 1 - |short|;
      assert LastDigits(0, k - 1 - |short|) + short + [Digit(n % 10)]
          == LastDigits(0, k - 1 - |short|) + (short + [Digit(n % 10)]);
    }
  }

  /** Below 10^32 the padded decimal text is the fixed-width digit string. */
  lemma PaddedIsFixedWidth(n: nat)
    requires n < LIMIT
    ensures PadStart(Decimal(n), WIDTH) == LastDigits(n, WIDTH)
  {
    DecimalFits(n, WIDTH);
    PadStartZeros(Decimal(n), WIDTH);
  }

  // ---------------------------------------------------------------------------------------
  // String order

  /** JavaScript's default sort order on strings. */
  predicate TextLess(a: string, b: string) {
    b != "" && (a == "" || a[0] < b[0] || (a[0] == b[0] && TextLess(a[1..], b[1..])))
  }

  lemma {:induction false} TextLessAfterPrefix(p: string, a: string, b: string)
    ensures TextLess(p + a, p + b) == TextLess(a, b)
  {
    if p == "" {
      assert p + a == a && p + b == b;
    } else {
      assert (p + a)[1..] == p[1..] + a && (p + b)[1..] == p[1..] + b;
      TextLessAfterPrefix(p[1..], a, b);
    }
  }

  lemma {:induction false} TextLessDecided(x: string, y: string, u: string, v: string)
    requires |x| == |y| && TextLess(x, y)
    ensures TextLess(x + u, y + v)
  {
    assert (x + u)[1..] == x[1..] + u && (y + v)[1..] == y[1..] + v;
    if x[0] == y[0] {
      TextLessDecided(x[1..], y[1..], u, v);
    }
  }

  lemma {:induction false} TextLessAppend(x: string, y: string, c: char, d: char)
    requires |x| == |y|
    ensures TextLess(x, y) ==> TextLess(x + [c], y + [d])
    ensures x == y && c < d ==> TextLess(x + [c], y + [d])
  {
    if TextLess(x, y) {
      TextLessDecided(x, y, [c], [d]);
    } else if x == y && c < d {
      TextLessAfterPrefix(x, [c], [d]);
    }
  }

  lemma {:induction false} TextLessTotal(a: string, b: string)
    ensures a == b || TextLess(a, b) || TextLess(b, a)
    ensures !(TextLess(a, b) && TextLess(b, a))
    ensures !TextLess(a, a)
  {
    if a != "" {
      TextLessTotal(a[1..], a[1..]);
    }
    if a != "" && b != "" {
      TextLessTotal(a[1..], b[1..]);
      assert a == [a[0]] + a[1..] && b == [b[0]] + b[1..];
    }
  }

  lemma {:induction false} TextLessTransitive(a: string, b: string, c: string)
    requires TextLess(a, b) && TextLess(b, c)
    ensures TextLess(a, c)
  {
    if a != "" && a[0] == b[0] == c[0] {
      TextLessTransitive(a[1..], b[1..], c[1..]);
    }
  }

  /** Fixed-width digit strings sort as their numbers. */
  lemma {:induction false} LastDigitsOrder(m: nat, n: nat, k: nat)
    requires m < n < Pow10(k)
    ensures TextLess(LastDigits(m, k), LastDigits(n, k))
  {
    assert k > 0;
    if m / 10 < n / 10 {
      LastDigitsOrder(m / 10, n / 10, k - 1);
    }
    TextLessAppend(LastDigits(m / 10, k - 1), LastDigits(n / 10, k - 1), Digit(m % 10), Digit(n % 10));
  }

  // ---------------------------------------------------------------------------------------
  // Ticket names

  /** A ticket file: its lane, its sequence number and the random token that ends its name. */
  datatype TicketName = TicketName(lane: Lane, sequence: nat, token: string) {
    function Text(): string {
      Prefix(lane) + PadStart(Decimal(sequence), WIDTH) + "-" + token + ".json"
    }

    ghost predicate Bounded() { sequence < LIMIT }
  }

  predicate StartsWith(s: string, p: string) { |p| <= |s| && s[..|p|] == p }

  /** The tickets a listing of the lane keeps. */
  predicate Listed(lane: Lane, n: TicketName) { StartsWith(n.Text(), Prefix(lane)) }

  lemma Regroup(p: string, d: string, token: string)
    ensures p + d + "-" + token + ".json" == p + (d + ("-" + token + ".json"))
  {
  }

  lemma TextParts(n: TicketName)
    requires n.Bounded()
    ensures n.Text() == Prefix(n.lane) + (LastDigits(n.sequence, WIDTH) + ("-" + n.token + ".json"))
  {
    PaddedIsFixedWidth(n.sequence);
    Regroup(Prefix(n.lane), LastDigits(n.sequence, WIDTH), n.token);
  }

  /** The characters that tell the prefixes apart. */
  lemma PrefixShape(lane: Lane)
    ensures var p := Prefix(lane);
            && |p| == (match lane
                       case WatchLane => 6 case BackgroundLane => 21 case InteractiveLane => 22
                       case LightLane => 28 case WeightedLane => 31)
            && p[0] == (if lane == WatchLane then 'w' else 'e')
            && (lane != WatchLane ==> p[10] == if lane == BackgroundLane then 'b' else 'i')
            && (lane == LightLane ==> p[22] == 'l')
            && (lane == WeightedLane ==> p[22] == 'w')
            && (lane == LightLane || lane == WeightedLane ==> p[..22] == Prefix(InteractiveLane))
  {
    assert LightLane == lane ==> Prefix(lane)[..22] == Prefix(InteractiveLane);
    assert WeightedLane == lane ==> Prefix(lane)[..22] == Prefix(InteractiveLane);
  }

  lemma TextStart(n: TicketName)
    requires n.Bounded()
    ensures var t, p := n.Text(), Prefix(n.lane);
            |p| < |t| && t[..|p|] == p && '0' <= t[|p|] <= '9'
  {
    TextParts(n);
    var p, d := Prefix(n.lane), LastDigits(n.sequence, WIDTH);
    assert |d| == WIDTH && '0' <= d[0] <= '9';
    assert n.Text()[|p|] == d[0];
  }

  /** A lane's prefix keeps exactly the lane's own tickets, except that the plain interactive
      prefix also keeps those of the light and weighted lanes. */
  lemma ListedLanes(lane: Lane, n: TicketName)
    requires n.Bounded()
    ensures Listed(lane, n)
       <==> n.lane == lane || (lane == InteractiveLane && (n.lane == LightLane || n.lane == WeightedLane))
  {
    TextStart(n);
    SharedPrefix(n.Text(), Prefix(n.lane), lane, n.lane);
  }

  /** The text-level content of ListedLanes: `t` starts with the prefix of lane `own` and goes
      on with a digit. */
  lemma SharedPrefix(t: string, q: string, lane: Lane, own: Lane)
    requires q == Prefix(own) && |q| < |t| && t[..|q|] == q && '0' <= t[|q|] <= '9'
    ensures StartsWith(t, Prefix(lane))
       <==> own == lane || (lane == InteractiveLane && (own == LightLane || own == WeightedLane))
  {
    PrefixShape(lane);
    PrefixShape(own);
    var p := Prefix(lane);
    assert t[0] == q[0] && (|q| > 10 ==> t[10] == q[10]) && (|q| > 22 ==> t[22] == q[22]);
    if StartsWith(t, p) {
      assert t[0] == p[0] && (|p| > 10 ==> t[10] == p[10]) && (|p| > 22 ==> t[22] == p[22]);
    } else if lane == InteractiveLane && (own == LightLane || own == WeightedLane) {
      assert t[..22] == t[..|q|][..22];
    }
  }

  /** Among the names a listing keeps, the lane's own tickets come first, in sequence order. */
  lemma ListedOrder(lane: Lane, a: TicketName, b: TicketName)
    requires a.Bounded() && b.Bounded() && a.lane == lane && Listed(lane, b)
    requires b.lane != lane || a.sequence < b.sequence
    ensures TextLess(a.Text(), b.Text())
  {
    ListedLanes(lane, b);
    TextParts(a);
    TextParts(b);
    var x, y := LastDigits(a.sequence, WIDTH), LastDigits(b.sequence, WIDTH);
    if b.lane == lane {
      LastDigitsOrder(a.sequence, b.sequence, WIDTH);
      TextLessDecided(x, y, "-" + a.token + ".json", "-" + b.token + ".json");
      TextLessAfterPrefix(Prefix(lane), x + ("-" + a.token + ".json"), y + ("-" + b.token + ".json"));
    } else {
      var p := Prefix(lane);
      var u, v := a.Text()[|p|..], b.Text()[|p|..];
      assert a.Text() == p + u;
      assert Prefix(b.lane)[..|p|] == p;
      assert b.Text() == p + v;
      PrefixShape(lane);
      PrefixShape(b.lane);
      TextStart(a);
      TextStart(b);
      assert v[0] == b.Text()[|p|] == Prefix(b.lane)[|p|];
      assert u[0] == a.Text()[|p|];
      assert '0' <= u[0] <= '9' && (v[0] == 'l' || v[0] == 'w');
      TextLessAfterPrefix(p, u, v);
    }
  }

  /** `h` is what a listing of the lane yields: nothing when no name matches, otherwise the
      first matching name in string order. */
  ghost predicate IsListHead(names: set<TicketName>, lane: Lane, h: Option<TicketName>) {
    match h
    case None => forall n :: n in names ==> !Listed(lane, n)
    case Some(first) =>
      && first in names && Listed(lane, first)
      && forall n :: n in names && Listed(lane, n) && n != first ==> TextLess(first.Text(), n.Text())
  }

  /** If the lane has a ticket in the directory, the listing yields a ticket of that lane, and
      none of the lane's tickets has a smaller sequence number. */
  lemma HeadIsLeastOfLane(names: set<TicketName>, lane: Lane, h: Option<TicketName>, mine: TicketName)
    requires forall n :: n in names ==> n.Bounded()
    requires IsListHead(names, lane, h)
    requires mine in names && mine.lane == lane
    ensures h.Some? && h.value.lane == lane && h.value.sequence <= mine.sequence
  {
    ListedLanes(lane, mine);
    assert Listed(lane, mine);
    var first := h.value;
    if first != mine {
      TextLessTotal(first.Text(), mine.Text());
      if first.lane != lane || mine.sequence < first.sequence {
        ListedOrder(lane, mine, first);
      }
    }
  }

  /** Every listing has a head, provided no two tickets share a lane and a sequence number. */
  lemma {:induction false} ListHeadExists(names: set<TicketName>, lane: Lane) returns (h: Option<TicketName>)
    requires forall m, n :: m in names && n in names && m != n ==> m.Text() != n.Text()
    ensures IsListHead(names, lane, h)
  {
    if exists n :: n in names && Listed(lane, n) {
      var n :| n in names && Listed(lane, n);
      var rest := ListHeadExists(names - {n}, lane);
      h := if rest.None? || TextLess(n.Text(), rest.value.Text()) then Some(n) else rest;
      if rest.Some? {
        TextLessTotal(n.Text(), rest.value.Text());
        forall m | m in names && Listed(lane, m) && m != h.value
          ensures TextLess(h.value.Text(), m.Text())
        {
          if h.value == n && m != rest.value {
            TextLessTransitive(n.Text(), rest.value.Text(), m.Text());
          }
        }
      }
    } else {
      h := None;
    }
  }

  /** Bounded names with different lanes or numbers have different texts. */
  lemma TextDistinct(a: TicketName, b: TicketName)
    requires a.Bounded() && b.Bounded()
    requires a.lane != b.lane || a.sequence != b.sequence
    ensures a.Text() != b.Text()
  {
    ListedLanes(a.lane, a);
    ListedLanes(b.lane, b);
    ListedLanes(b.lane, a);
    ListedLanes(a.lane, b);
    if a.Text() == b.Text() {
      TextLessTotal(a.Text(), a.Text());
      if a.lane == b.lane {
        if a.sequence < b.sequence {
          ListedOrder(a.lane, a, b);
        } else {
          ListedOrder(a.lane, b, a);
        }
      }
    }
  }
}
