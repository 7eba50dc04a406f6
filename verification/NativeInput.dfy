/**
  Cleanup after a partially accepted input list (chrome-bridge/src/native.rs).  When the system
  accepts only a prefix of a list of key and mouse events, the keys and buttons that the prefix
  left down are released, and nothing else is sent.
 */
module NativeInput {

  datatype Button = Left | Right | Middle

  /** What identifies a key: its code, its scan code, and its flags without the key-up flag. */
  datatype KeyId = KeyId(code: nat, scan: nat, flags: nat)

  /** A mouse event may press and release several buttons, or none (movement, wheel). */
  datatype Event = Key(id: KeyId, up: bool) | Mouse(downs: set<Button>, ups: set<Button>) | Other

  /** Something that can be held down. */
  datatype Input = AKey(id: KeyId) | AButton(button: Button)

  // ---------------------------------------------------------------------------------------
  // What a list of events leaves held

  predicate Presses(e: Event, x: Input) {
    match x
    case AKey(id) => e == Key(id, false)
    case AButton(b) => e.Mouse? && b in e.downs && b !in e.ups
  }

  predicate Releases(e: Event, x: Input) {
    match x
    case AKey(id) => e == Key(id, true)
    case AButton(b) => e.Mouse? && b in e.ups
  }

  ghost predicate HeldFrom(events: seq<Event>, x: Input, i: int) {
    && 0 <= i < |events| && Presses(events[i], x)
    && forall j :: i < j < |events| ==> !Releases(events[j], x)
  }

  /** An input is held when some event pressed it and no later event released it. */
  ghost predicate IsHeld(events: seq<Event>, x: Input) { exists i :: HeldFrom(events, x, i) }

  // ---------------------------------------------------------------------------------------
  // The tracking loop

  datatype Held = Held(keys: seq<KeyId>, buttons: set<Button>)

  function Without(keys: seq<KeyId>, id: KeyId): seq<KeyId> {
    if keys == [] then []
    else Without(keys[..|keys| - 1], id) + if keys[|keys| - 1] == id then [] else [keys[|keys| - 1]]
  }

  function After(h: Held, e: Event): Held {
    match e
    case Key(id, true) => h.(keys := Without(h.keys, id))
    case Key(id, false) => if id in h.keys then h else h.(keys := h.keys + [id])
    case Mouse(downs, ups) => h.(buttons := h.buttons + downs - ups)
    case Other => h
  }

  function Tracked(h: Held, events: seq<Event>): Held {
    if events == [] then h else After(Tracked(h, events[..|events| - 1]), events[|events| - 1])
  }

  const RELEASED := Held([], {})

  function KeyUps(keys: seq<KeyId>): seq<Event> {
    if keys == [] then [] else [Key(keys[|keys| - 1], true)] + KeyUps(keys[..|keys| - 1])
  }

  function ButtonUp(buttons: set<Button>, b: Button): seq<Event> {
    if b in buttons then [Mouse({}, {b})] else []
  }

  /** Key-ups in the reverse of the order in which the keys went down, then button-ups. */
  function Cleanup(h: Held): seq<Event> {
    KeyUps(h.keys) + ButtonUp(h.buttons, Left) + ButtonUp(h.buttons, Right) + ButtonUp(h.buttons, Middle)
  }

  /** The loop over the three buttons: a button is first pressed, then released. */
  method PressButtons(before: set<Button>, downs: set<Button>, ups: set<Button>) returns (buttons: set<Button>)
    ensures buttons == before + downs - ups
  {
    buttons := before;
    var order := [Left, Right, Middle];
    for k := 0 to 3
      invariant forall b :: b in buttons <==> if b in order[..k] then b in before + downs - ups else b in before
    {
      assert order[..k + 1] == order[..k] + [order[k]];
      if order[k] in downs {
        buttons := buttons + {order[k]};
      }
      if order[k] in ups {
        buttons := buttons - {order[k]};
      }
    }
    forall b: Button ensures b in order[..3] {
      assert b == order[0] || b == order[1] || b == order[2];
    }
  }

  method ReleasePrefix(inputs: seq<Event>, accepted: nat) returns (releases: seq<Event>)
    ensures releases == Cleanup(Tracked(RELEASED, inputs[..if accepted < |inputs| then accepted else |inputs|]))
  {
    var keys: seq<KeyId>, buttons: set<Button> := [], {};
    var count := if accepted < |inputs| then accepted else |inputs|;
    for i := 0 to count
      invariant Held(keys, buttons) == Tracked(RELEASED, inputs[..i])
    {
      assert inputs[..i + 1][..i] == inputs[..i];
      match inputs[i]
      case Key(id, up) =>
        if up {
          keys := Without(keys, id);
        } else if id !in keys {
          keys := keys + [id];
        }
      case Mouse(downs, ups) =>
        buttons := PressButtons(buttons, downs, ups);
      case Other =>
    }
    releases := [];
    var left := keys;
    while |left| > 0
      invariant releases + KeyUps(left) == KeyUps(keys)
      decreases |left|
    {
      releases := releases + [Key(left[|left| - 1], true)];
      left := left[..|left| - 1];
    }
    assert releases == KeyUps(keys);
    releases := releases + ButtonUp(buttons, Left) + ButtonUp(buttons, Right) + ButtonUp(buttons, Middle);
  }

  // ---------------------------------------------------------------------------------------
  // The tracked state is what is held

  predicate Has(h: Held, x: Input) {
    match x
    case AKey(id) => id in h.keys
    case AButton(b) => b in h.buttons
  }

  ghost predicate Distinct<T>(s: seq<T>) { forall i, j :: 0 <= i < j < |s| ==> s[i] != s[j] }

  lemma {:induction false} WithoutIs(keys: seq<KeyId>, id: KeyId)
    ensures forall k :: k in Without(keys, id) <==> k in keys && k != id
    ensures Distinct(keys) ==> Distinct(Without(keys, id))
  {
    if keys != [] {
      var front, last := keys[..|keys| - 1], keys[|keys| - 1];
      WithoutIs(front, id);
      assert forall k :: k in keys <==> k in front || k == last;
      assert Distinct(keys) ==> last !in front;
    }
  }

  lemma AfterHas(h: Held, e: Event, x: Input)
    ensures Has(After(h, e), x) <==> Presses(e, x) || (Has(h, x) && !Releases(e, x))
    ensures Distinct(h.keys) ==> Distinct(After(h, e).keys)
  {
    if e.Key? {
      WithoutIs(h.keys, e.id);
    }
  }

  lemma HeldSnoc(events: seq<Event>, e: Event, x: Input)
    ensures IsHeld(events + [e], x) <==> Presses(e, x) || (IsHeld(events, x) && !Releases(e, x))
  {
    var all := events + [e];
    if Presses(e, x) {
      assert HeldFrom(all, x, |events|);
    }
    forall i | HeldFrom(events, x, i) && !Releases(e, x) ensures HeldFrom(all, x, i) {
      assert forall j :: i < j < |all| ==> all[j] == if j < |events| then events[j] else e;
    }
    forall i | HeldFrom(all, x, i) && !Presses(e, x) ensures HeldFrom(events, x, i) && !Releases(e, x) {
      assert all[|events|] == e;
      assert forall j :: 0 <= j < |events| ==> all[j] == events[j];
    }
  }

  /** Tracking knows exactly the inputs that the events leave held, each key once. */
  lemma {:induction false} TrackedIsHeld(events: seq<Event>, x: Input)
    ensures Has(Tracked(RELEASED, events), x) <==> IsHeld(events, x)
    ensures Distinct(Tracked(RELEASED, events).keys)
  {
    if events != [] {
      var front, last := events[..|events| - 1], events[|events| - 1];
      TrackedIsHeld(front, x);
      AfterHas(Tracked(RELEASED, front), last, x);
      HeldSnoc(front, last, x);
      assert front + [last] == events;
    }
  }

  // ---------------------------------------------------------------------------------------
  // Cleanup is exact and complete

  function UpOf(x: Input): Event {
    match x
    case AKey(id) => Key(id, true)
    case AButton(b) => Mouse({}, {b})
  }

  /** The held inputs in the order of their release. */
  function ReleaseOrder(h: Held): seq<Input> {
    KeyOrder(h.keys) + ButtonOrder(h.buttons)
  }

  function KeyOrder(keys: seq<KeyId>): (r: seq<Input>)
    ensures |r| == |keys| && forall i :: 0 <= i < |r| ==> r[i] == AKey(keys[|keys| - 1 - i])
  {
    if keys == [] then [] else [AKey(keys[|keys| - 1])] + KeyOrder(keys[..|keys| - 1])
  }

  function ButtonOrder(buttons: set<Button>): (r: seq<Input>)
    ensures Distinct(r) && forall i :: 0 <= i < |r| ==> r[i].AButton?
    ensures forall b :: AButton(b) in r <==> b in buttons
  {
    assert forall b :: b in buttons ==> b == Left || b == Right || b == Middle;
    var left := if Left in buttons then [AButton(Left)] else [];
    var right := if Right in buttons then [AButton(Right)] else [];
    var middle := if Middle in buttons then [AButton(Middle)] else [];
    assert forall x :: x in left + right + middle <==> x in left || x in right || x in middle;
    left + right + middle
  }

  lemma {:induction false} KeyUpsFollow(keys: seq<KeyId>)
    ensures |KeyUps(keys)| == |keys|
    ensures forall i :: 0 <= i < |keys| ==> KeyUps(keys)[i] == UpOf(KeyOrder(keys)[i])
  {
    if keys != [] {
      KeyUpsFollow(keys[..|keys| - 1]);
    }
  }

  lemma ButtonUpsFollow(buttons: set<Button>)
    ensures var ups := ButtonUp(buttons, Left) + ButtonUp(buttons, Right) + ButtonUp(buttons, Middle);
            && |ups| == |ButtonOrder(buttons)|
            && forall i :: 0 <= i < |ups| ==> ups[i] == UpOf(ButtonOrder(buttons)[i])
  {
  }

  lemma CleanupFollows(h: Held)
    ensures |Cleanup(h)| == |ReleaseOrder(h)|
    ensures forall i :: 0 <= i < |Cleanup(h)| ==> Cleanup(h)[i] == UpOf(ReleaseOrder(h)[i])
  {
    var ups := ButtonUp(h.buttons, Left) + ButtonUp(h.buttons, Right) + ButtonUp(h.buttons, Middle);
    KeyUpsFollow(h.keys);
    ButtonUpsFollow(h.buttons);
    assert Cleanup(h) == KeyUps(h.keys) + ups;
  }

  lemma ReleaseOrderIs(h: Held, x: Input)
    ensures x in ReleaseOrder(h) <==> Has(h, x)
  {
    var r := KeyOrder(h.keys);
    if x.AKey? && x.id in h.keys {
      var i :| 0 <= i < |h.keys| && h.keys[i] == x.id;
      assert r[|h.keys| - 1 - i] == x;
    }
  }

  lemma ReleaseOrderDistinct(h: Held)
    requires Distinct(h.keys)
    ensures Distinct(ReleaseOrder(h))
  {
  }

  /** Cleanup is one up event for each input that the accepted events leave held, and nothing
      else: no input is released twice and none is pressed. */
  lemma CleanupIsExact(events: seq<Event>)
    ensures var h := Tracked(RELEASED, events);
            var order := ReleaseOrder(h);
            && |Cleanup(h)| == |order|
            && (forall i :: 0 <= i < |order| ==> Cleanup(h)[i] == UpOf(order[i]))
            && Distinct(order)
            && forall x :: x in order <==> IsHeld(events, x)
  {
    var h := Tracked(RELEASED, events);
    CleanupFollows(h);
    forall x ensures x in ReleaseOrder(h) <==> IsHeld(events, x) {
      ReleaseOrderIs(h, x);
      TrackedIsHeld(events, x);
    }
    TrackedIsHeld(events, AButton(Left));
    ReleaseOrderDistinct(h);
  }

  /** Everything pressed by the accepted events is released by them or by the cleanup. */
  lemma PressIsReleased(events: seq<Event>, x: Input, k: nat)
    requires k < |events| && Presses(events[k], x)
    ensures var all := events + Cleanup(Tracked(RELEASED, events));
            exists j :: k < j < |all| && Releases(all[j], x)
  {
    var h := Tracked(RELEASED, events);
    var all := events + Cleanup(h);
    CleanupIsExact(events);
    if HeldFrom(events, x, k) {
      assert x in ReleaseOrder(h);
      var i :| 0 <= i < |ReleaseOrder(h)| && ReleaseOrder(h)[i] == x;
      assert Releases(all[|events| + i], x);
    } else {
      var j :| k < j < |events| && Releases(events[j], x);
      assert Releases(all[j], x);
    }
  }

  /** The accepted events followed by the cleanup leave nothing held. */
  lemma CleanupLeavesNothingHeld(events: seq<Event>)
    ensures forall x :: !IsHeld(events + Cleanup(Tracked(RELEASED, events)), x)
  {
    var ups := Cleanup(Tracked(RELEASED, events));
    var all := events + ups;
    CleanupIsExact(events);
    forall x, k ensures !HeldFrom(all, x, k) {
      if 0 <= k < |events| && Presses(events[k], x) {
        PressIsReleased(events, x, k);
      }
      assert |events| <= k < |all| ==> all[k] == ups[k - |events|];
    }
  }

  // ---------------------------------------------------------------------------------------
  // Complete lists need no cleanup

  lemma CleanupMeansHeld(events: seq<Event>)
    requires Cleanup(Tracked(RELEASED, events)) != []
    ensures exists x :: IsHeld(events, x)
  {
    CleanupIsExact(events);
    var order := ReleaseOrder(Tracked(RELEASED, events));
    assert order[0] in order;
  }

  lemma NothingHeldNoCleanup(events: seq<Event>)
    requires forall x :: !IsHeld(events, x)
    ensures Cleanup(Tracked(RELEASED, events)) == []
  {
    if Cleanup(Tracked(RELEASED, events)) != [] {
      CleanupMeansHeld(events);
    }
  }

  function KeyCode(code: nat): KeyId { KeyId(code, 0, 0) }

  /** The events of a key chord: all keys down, then up in reverse. */
  function Chord(codes: seq<nat>): seq<Event> {
    seq(2 * |codes|, i requires 0 <= i < 2 * |codes| =>
      if i < |codes| then Key(KeyCode(codes[i]), false) else Key(KeyCode(codes[2 * |codes| - 1 - i]), true))
  }

  method BuildChord(codes: seq<nat>) returns (inputs: seq<Event>)
    ensures inputs == Chord(codes)
  {
    inputs := [];
    for i := 0 to |codes|
      invariant inputs == Chord(codes)[..i]
    {
      inputs := inputs + [Key(KeyCode(codes[i]), false)];
    }
    for i := |codes| downto 0
      invariant inputs == Chord(codes)[..2 * |codes| - i]
    {
      inputs := inputs + [Key(KeyCode(codes[i]), true)];
    }
  }

  lemma ChordIsComplete(codes: seq<nat>)
    ensures Cleanup(Tracked(RELEASED, Chord(codes))) == []
  {
    var events := Chord(codes);
    forall x, k ensures !HeldFrom(events, x, k) {
      assert 0 <= k < |codes| ==> events[2 * |codes| - 1 - k] == Key(KeyCode(codes[k]), true);
    }
    NothingHeldNoCleanup(events);
  }

  lemma ClickIsComplete(b: Button)
    ensures Cleanup(Tracked(RELEASED, [Mouse({b}, {}), Mouse({}, {b})])) == []
  {
    var events := [Mouse({b}, {}), Mouse({}, {b})];
    forall x, k ensures !HeldFrom(events, x, k) {
      assert events[1] == Mouse({}, {b});
    }
    NothingHeldNoCleanup(events);
  }

  const UNICODE := 4

  /** The events of a text chunk: each unit down, then up. */
  function Typed(units: seq<nat>): (r: seq<Event>)
    ensures |r| == 2 * |units|
    ensures forall i :: 0 <= i < |units| ==>
              r[2 * i] == Key(KeyId(0, units[i], UNICODE), false) && r[2 * i + 1] == Key(KeyId(0, units[i], UNICODE), true)
  {
    if units == [] then []
    else
      var id := KeyId(0, units[|units| - 1], UNICODE);
      Typed(units[..|units| - 1]) + [Key(id, false), Key(id, true)]
  }

  lemma TextIsComplete(units: seq<nat>)
    ensures Cleanup(Tracked(RELEASED, Typed(units))) == []
  {
    var events := Typed(units);
    forall x, k ensures !HeldFrom(events, x, k) {
      if 0 <= k < |events| {
        assert k == 2 * (k / 2) || k == 2 * (k / 2) + 1;
        assert events[2 * (k / 2) + 1] == Key(KeyId(0, units[k / 2], UNICODE), true);
      }
    }
    NothingHeldNoCleanup(events);
  }

  // ---------------------------------------------------------------------------------------
  // Sending

  /** What the system accepts of a list, as reported by it. */
  function Accepted(inputs: seq<Event>, count: nat): seq<Event> {
    inputs[..if count < |inputs| then count else |inputs|]
  }

  /** Sending a list: on partial acceptance the cleanup is sent once, and the error is reported
      either way.  `delivered` is everything the system accepted. */
  method Send(inputs: seq<Event>, count: nat, cleanupCount: nat) returns (ok: bool, ghost delivered: seq<Event>)
    requires count <= |inputs|
    ensures ok <==> count == |inputs|
    ensures ok ==> delivered == inputs
    ensures var cleanup := Cleanup(Tracked(RELEASED, inputs[..count]));
            !ok ==> delivered == inputs[..count] + Accepted(cleanup, cleanupCount)
                    && (cleanupCount >= |cleanup| ==> forall x :: !IsHeld(delivered, x))
  {
    ok, delivered := true, inputs;
    if count != |inputs| {
      var cleanup := ReleasePrefix(inputs, count);
      CleanupLeavesNothingHeld(inputs[..count]);
      assert cleanup[..|cleanup|] == cleanup;
      ok, delivered := false, inputs[..count] + Accepted(cleanup, cleanupCount);
    }
  }
}
