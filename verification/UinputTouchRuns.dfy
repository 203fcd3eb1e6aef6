/** What the touch driver keeps over every stream of touch events. */
module UinputTouchRuns {
  import opened Prelude
  import opened Evdev
  import opened UinputTouch

  function TableAfter(run: seq<Input>): Table {
    if run == [] then EMPTY else NextTable(TableAfter(run[..|run| - 1]), run[|run| - 1])
  }

  /** The device after every event emitted so far was written to it. */
  function DeviceAfter(run: seq<Input>): Touchscreen {
    if run == [] then IDLE
    else
      var before := run[..|run| - 1];
      ReceiveAll(DeviceAfter(before), Emitted(TableAfter(before), run[|run| - 1]))
  }

  /** The last contact event of this pointer that was not refused. */
  function LastContact(run: seq<Input>, id: int): Option<Input> {
    if run == [] then None
    else
      var i := run[|run| - 1];
      if i.geometry.Some? && Contact(i.event.kind) && i.event.id == id then Some(i)
      else LastContact(run[..|run| - 1], id)
  }

  // -------------------------------------------------------------------------
  // Slots
  // -------------------------------------------------------------------------

  predicate Distinct(t: Table) {
    forall a, b :: 0 <= a < b < SLOTS && t[a].Some? ==> t[a] != t[b]
  }

  /** One slot of the device is what the driver's table says it is. */
  predicate SlotAgrees(run: seq<Input>, t: Table, slots: seq<Contacts>, s: nat)
    requires |slots| == SLOTS && s < SLOTS
  {
    if t[s].None? then slots[s].id == -1
    else
      var last := LastContact(run, t[s].value);
      && last.Some? && last.value.geometry.Some?
      && slots[s].id == s && Shows(slots[s], last.value.event, last.value.geometry.value)
  }

  ghost predicate Agrees(run: seq<Input>) {
    && Distinct(TableAfter(run))
    && |DeviceAfter(run).slots| == SLOTS
    && forall s :: 0 <= s < SLOTS ==> SlotAgrees(run, TableAfter(run), DeviceAfter(run).slots, s)
  }

  lemma {:induction false} AssignFree(t: Table, id: int)
    requires Distinct(t) && Assign(t, id).Some?
    ensures Distinct(t[Assign(t, id).value := Some(id)])
    ensures forall s :: 0 <= s < SLOTS && t[s] == Some(id) ==> s == Assign(t, id).value
  {
    var own := SlotOf(t, Some(id), 0);
    assert t[0..] == t;
    forall s | 0 <= s < SLOTS && t[s] == Some(id) ensures s == Assign(t, id).value {
      assert t[s] in t;
    }
  }

  lemma {:induction false} SlotStep(run: seq<Input>, i: Input, s: nat)
    requires Agrees(run) && s < SLOTS
    ensures |DeviceAfter(run + [i]).slots| == SLOTS
    ensures SlotAgrees(run + [i], TableAfter(run + [i]), DeviceAfter(run + [i]).slots, s)
  {
    var all, t := run + [i], TableAfter(run);
    assert all[..|all| - 1] == run;
    DeviceStep(DeviceAfter(run), t, i);
    assert SlotAgrees(run, t, DeviceAfter(run).slots, s);
    if Touches(t, i) {
      AssignFree(t, i.event.id);
    } else if !Releases(t, i) && i.geometry.Some? && Contact(i.event.kind) {
      assert t[0..] == t && t[s] in t;
    }
  }

  lemma {:induction false} TableStep(t: Table, i: Input)
    requires Distinct(t)
    ensures Distinct(NextTable(t, i))
  {
    if Touches(t, i) { AssignFree(t, i.event.id); }
  }

  /**
    After every stream of touch events: a slot of the device has tracking id s in
    slot s exactly when the driver's table has a pointer there, no pointer holds
    two slots, and a held slot shows its pointer's latest event: its place in the
    screen, pressure, diameters and orientation.
  */
  lemma {:induction false} DeviceAgreesWithTable(run: seq<Input>)
    ensures Agrees(run)
  {
    if run != [] {
      var before, i := run[..|run| - 1], run[|run| - 1];
      assert run == before + [i];
      DeviceAgreesWithTable(before);
      TableStep(TableAfter(before), i);
      SlotStep(before, i, 0);
      forall s | 0 <= s < SLOTS
        ensures |DeviceAfter(run).slots| == SLOTS && SlotAgrees(run, TableAfter(run), DeviceAfter(run).slots, s)
      {
        SlotStep(before, i, s);
      }
    }
  }

  /** The last contact event that has a slot. */
  function LastTouched(run: seq<Input>): Option<Input> {
    if run == [] then None
    else if Touches(TableAfter(run[..|run| - 1]), run[|run| - 1]) then Some(run[|run| - 1])
    else LastTouched(run[..|run| - 1])
  }

  /** For a reader without multitouch, the single pointer is where the last of all contacts is. */
  lemma {:induction false} SinglePointerFollows(run: seq<Input>)
    ensures var d, last := DeviceAfter(run), LastTouched(run);
      last.Some? ==> last.value.geometry.Some? && InPlace(d.x, d.y, last.value.event, last.value.geometry.value)
  {
    if run != [] {
      var before, i := run[..|run| - 1], run[|run| - 1];
      SinglePointerFollows(before);
      DeviceAgreesWithTable(before);
      SinglePointerStep(DeviceAfter(before), TableAfter(before), i);
    }
  }

  lemma {:induction false} SinglePointerStep(d: Touchscreen, t: Table, i: Input)
    requires |d.slots| == SLOTS
    ensures var n := ReceiveAll(d, Emitted(t, i));
      && (Touches(t, i) ==> InPlace(n.x, n.y, i.event, i.geometry.value))
      && (!Touches(t, i) ==> n.x == d.x && n.y == d.y)
  {
    DeviceStep(d, t, i);
  }

  /**
    A pointer keeps its slot until one of its own releases; a new pointer gets the
    lowest free slot, and is ignored exactly when there is none.
  */
  lemma {:induction false} PointerKeepsSlot(run: seq<Input>, i: Input, s: nat)
    requires s < SLOTS
    ensures var t, u := TableAfter(run), TableAfter(run + [i]); var id := i.event.id;
      && (t[s].Some? && !(Releases(t, i) && t[s] == Some(id)) ==> u[s] == t[s])
      && (t[s].Some? && Releases(t, i) && t[s] == Some(id) ==> u[s].None?)
      && (i.geometry.Some? && Contact(i.event.kind) && Some(id) !in t ==>
            (Some(id) in u <==> None in t)
            && (u[s] == Some(id) ==> t[s].None? && forall r :: 0 <= r < s ==> t[r].Some?))
  {
    var t := TableAfter(run);
    DeviceAgreesWithTable(run);
    assert (run + [i])[..|run|] == run;
    assert t[0..] == t;
    if Touches(t, i) {
      AssignFree(t, i.event.id);
      var a := Assign(t, i.event.id).value;
      assert t[a := Some(i.event.id)][a] == Some(i.event.id);
      if SlotOf(t, Some(i.event.id), 0).None? {
        forall r | 0 <= r < a ensures t[r].Some? {
          assert t[r] == t[0..a][r];
        }
      }
    }
  }

  // -------------------------------------------------------------------------
  // Finger keys
  // -------------------------------------------------------------------------

  lemma {:induction false} CountUpdate(t: seq<Option<int>>, s: nat, v: Option<int>)
    requires s < |t|
    ensures Count(t[s := v]) == Count(t) - (if t[s].Some? then 1 else 0) + (if v.Some? then 1 else 0)
  {
    if s == 0 {
      assert t[s := v][1..] == t[1..];
    } else {
      assert t[s := v][1..] == t[1..][s - 1 := v];
      CountUpdate(t[1..], s - 1, v);
    }
  }

  lemma {:induction false} CountPositive(t: seq<Option<int>>, s: nat)
    requires s < |t| && t[s].Some?
    ensures Count(t) >= 1
  {
    CountUpdate(t, s, None);
  }

  predicate TakesSlot(t: Table, i: Input) {
    Touches(t, i) && SlotOf(t, Some(i.event.id), 0).None?
  }

  /** Events that rewrite the finger keys. */
  predicate IsUpdate(t: Table, i: Input) {
    Releases(t, i) || (Touches(t, i) && i.event.kind.Down?)
  }

  lemma {:induction false} NextCount(t: Table, i: Input)
    ensures Count(NextTable(t, i)) ==
              Count(t) + (if TakesSlot(t, i) then 1 else 0) - (if Releases(t, i) then 1 else 0)
    ensures Releases(t, i) ==> Count(t) >= 1
    ensures Touches(t, i) ==> Count(NextTable(t, i)) >= 1
  {
    if Touches(t, i) {
      CountUpdate(t, Assign(t, i.event.id).value, Some(i.event.id));
      CountPositive(NextTable(t, i), Assign(t, i.event.id).value);
    } else if Releases(t, i) {
      CountUpdate(t, SlotOf(t, Some(i.event.id), 0).value, None);
    }
  }

  /** The tool key for this many fingers is asserted. */
  predicate Asserted(keys: set<int>, count: nat) {
    || (count == 1 && KEY_TOOL_FINGER in keys) || (count == 2 && KEY_TOOL_DOUBLETAP in keys)
    || (count == 3 && KEY_TOOL_TRIPLETAP in keys) || (count == 4 && KEY_TOOL_QUADTAP in keys)
    || (count == 5 && KEY_TOOL_QUINTTAP in keys)
  }

  /** Only finger keys for at most `n` fingers are asserted. */
  ghost predicate Within(keys: set<int>, n: nat) {
    forall k :: 1 <= k <= SLOTS && Asserted(keys, k) ==> k <= n
  }

  /** The finger key for `n` fingers is asserted, and no other. */
  ghost predicate Exact(keys: set<int>, n: nat) {
    forall k :: 1 <= k <= SLOTS ==> (Asserted(keys, k) <==> k == n)
  }

  lemma {:induction false} DownAsserts(keys: set<int>, n: nat, k: nat)
    requires 1 <= n <= SLOTS && 1 <= k <= SLOTS
    ensures Asserted(KeysAfterDown(keys, n), k) <==> k == n || (k != n - 1 && Asserted(keys, k))
    ensures KEY_TOUCH in KeysAfterDown(keys, n)
  {
  }

  lemma {:induction false} UpAsserts(keys: set<int>, n: nat, k: nat)
    requires 1 <= n <= SLOTS && 1 <= k <= SLOTS
    ensures Asserted(KeysAfterUp(keys, n), k) <==> k == n - 1 || (k != n && Asserted(keys, k))
    ensures KEY_TOUCH !in KeysAfterUp(keys, n)
  {
  }

  /** The keys after one more event. */
  lemma {:induction false} KeysStep(run: seq<Input>, i: Input)
    ensures var t := TableAfter(run); var keys := DeviceAfter(run).keys;
      DeviceAfter(run + [i]).keys ==
        if Releases(t, i) then KeysAfterUp(keys, Count(t))
        else if IsUpdate(t, i) then KeysAfterDown(keys, Count(TableAfter(run + [i])))
        else keys
    ensures TableAfter(run + [i]) == NextTable(TableAfter(run), i)
  {
    assert (run + [i])[..|run|] == run;
    DeviceAgreesWithTable(run);
    DeviceStep(DeviceAfter(run), TableAfter(run), i);
  }

  lemma {:induction false} WithinStep(run: seq<Input>, i: Input, k: nat)
    requires 1 <= k <= SLOTS && Within(DeviceAfter(run).keys, Count(TableAfter(run)))
    requires Asserted(DeviceAfter(run + [i]).keys, k)
    ensures k <= Count(TableAfter(run + [i]))
  {
    var t, keys := TableAfter(run), DeviceAfter(run).keys;
    KeysStep(run, i);
    NextCount(t, i);
    if Releases(t, i) {
      UpAsserts(keys, Count(t), k);
    } else if IsUpdate(t, i) {
      DownAsserts(keys, Count(TableAfter(run + [i])), k);
    }
  }

  lemma {:induction false} TouchKeyStep(run: seq<Input>, i: Input)
    requires Count(TableAfter(run)) == 0 ==> KEY_TOUCH !in DeviceAfter(run).keys
    ensures Count(TableAfter(run + [i])) == 0 ==> KEY_TOUCH !in DeviceAfter(run + [i]).keys
  {
    var t, keys := TableAfter(run), DeviceAfter(run).keys;
    KeysStep(run, i);
    NextCount(t, i);
    if Releases(t, i) { UpAsserts(keys, Count(t), 1); }
  }

  /**
    For every stream: the asserted finger keys are for at most as many fingers as
    there are pointers, and BTN_TOUCH needs at least one; so lifting every finger
    clears them all.
  */
  lemma {:induction false} KeysWithinCount(run: seq<Input>)
    ensures Within(DeviceAfter(run).keys, Count(TableAfter(run)))
    ensures Count(TableAfter(run)) == 0 ==> KEY_TOUCH !in DeviceAfter(run).keys
  {
    if run != [] {
      var before, i := run[..|run| - 1], run[|run| - 1];
      assert run == before + [i];
      KeysWithinCount(before);
      TouchKeyStep(before, i);
      forall k | 1 <= k <= SLOTS && Asserted(DeviceAfter(run).keys, k) ensures k <= Count(TableAfter(run)) {
        WithinStep(before, i, k);
      }
    }
  }

  /** The key for the live number of fingers is asserted after every DOWN and after every release. */
  lemma {:induction false} UpdateAssertsCount(run: seq<Input>, i: Input)
    requires IsUpdate(TableAfter(run), i)
    ensures var n := Count(TableAfter(run + [i]));
      && (n >= 1 ==> Asserted(DeviceAfter(run + [i]).keys, n))
      && (KEY_TOUCH in DeviceAfter(run + [i]).keys <==> i.event.kind.Down?)
  {
    var t, keys := TableAfter(run), DeviceAfter(run).keys;
    KeysStep(run, i);
    NextCount(t, i);
    if Releases(t, i) {
      UpAsserts(keys, Count(t), Max(Count(t) - 1, 1));
    } else {
      DownAsserts(keys, Count(TableAfter(run + [i])), Count(TableAfter(run + [i])));
    }
  }

  // -------------------------------------------------------------------------
  // When the finger keys are exact
  // -------------------------------------------------------------------------

  /** The number of pointers when the keys were last rewritten. */
  function Shown(run: seq<Input>): nat {
    if run == [] then 0
    else if IsUpdate(TableAfter(run[..|run| - 1]), run[|run| - 1]) then Count(TableAfter(run))
    else Shown(run[..|run| - 1])
  }

  /** The number of pointers that took a slot since. */
  function Unshown(run: seq<Input>): nat {
    if run == [] || IsUpdate(TableAfter(run[..|run| - 1]), run[|run| - 1]) then 0
    else Unshown(run[..|run| - 1]) + if TakesSlot(TableAfter(run[..|run| - 1]), run[|run| - 1]) then 1 else 0
  }

  /** Rewriting the keys after event `i` catches up with at most one new pointer, or starts from none. */
  predicate CatchesUp(run: seq<Input>, i: Input) {
    Shown(run) == 0 || Unshown(run) + (if TakesSlot(TableAfter(run), i) then 1 else 0) <= 1
  }

  predicate Announced(run: seq<Input>) {
    run == [] ||
    var before, i := run[..|run| - 1], run[|run| - 1];
    Announced(before) && (IsUpdate(TableAfter(before), i) ==> CatchesUp(before, i))
  }

  /** Every time the keys were rewritten, they showed exactly the number of fingers. */
  ghost predicate AlwaysExact(run: seq<Input>) {
    run == [] ||
    var before, i := run[..|run| - 1], run[|run| - 1];
    && AlwaysExact(before)
    && (IsUpdate(TableAfter(before), i) ==> Exact(DeviceAfter(run).keys, Count(TableAfter(run))))
  }

  lemma {:induction false} ShownPlusUnshown(run: seq<Input>)
    ensures Count(TableAfter(run)) == Shown(run) + Unshown(run)
  {
    if run != [] {
      var before := run[..|run| - 1];
      ShownPlusUnshown(before);
      NextCount(TableAfter(before), run[|run| - 1]);
    }
  }

  lemma {:induction false} UpdateExactness(run: seq<Input>, i: Input)
    requires IsUpdate(TableAfter(run), i) && Exact(DeviceAfter(run).keys, Shown(run))
    ensures Exact(DeviceAfter(run + [i]).keys, Count(TableAfter(run + [i]))) <==> CatchesUp(run, i)
  {
    var t, keys, all := TableAfter(run), DeviceAfter(run).keys, run + [i];
    var n0, n := Shown(run), Count(TableAfter(all));
    KeysStep(run, i);
    NextCount(t, i);
    ShownPlusUnshown(run);
    forall k | 1 <= k <= SLOTS
      ensures Asserted(DeviceAfter(all).keys, k) <==> k == n || (k == n0 && !CatchesUp(run, i))
    {
      assert Asserted(keys, k) <==> k == n0;
      if Releases(t, i) {
        UpAsserts(keys, Count(t), k);
      } else {
        DownAsserts(keys, n, k);
      }
    }
    if !CatchesUp(run, i) {
      assert Asserted(DeviceAfter(all).keys, n0);
    }
  }

  lemma {:induction false} AnnouncedShows(run: seq<Input>)
    requires Announced(run)
    ensures Exact(DeviceAfter(run).keys, Shown(run)) && AlwaysExact(run)
  {
    if run != [] {
      var before, i := run[..|run| - 1], run[|run| - 1];
      assert run == before + [i];
      AnnouncedShows(before);
      KeysStep(before, i);
      if IsUpdate(TableAfter(before), i) { UpdateExactness(before, i); }
    }
  }

  /**
    The finger keys are exact every time they are rewritten if and only if no
    rewrite has to catch up with two new pointers at once while fingers are shown.
  */
  lemma {:induction false} ExactIffAnnounced(run: seq<Input>)
    ensures AlwaysExact(run) <==> Announced(run)
  {
    if run != [] {
      var before, i := run[..|run| - 1], run[|run| - 1];
      assert run == before + [i];
      ExactIffAnnounced(before);
      if Announced(before) {
        AnnouncedShows(before);
        if IsUpdate(TableAfter(before), i) { UpdateExactness(before, i); }
      }
    }
  }

  /** Every pointer first appears in a DOWN. */
  predicate DownFirst(run: seq<Input>) {
    run == [] ||
    var before, i := run[..|run| - 1], run[|run| - 1];
    DownFirst(before) && (TakesSlot(TableAfter(before), i) ==> i.event.kind.Down?)
  }

  /** Then exactly the key for the live number of fingers is asserted at all times. */
  lemma {:induction false} DownFirstIsExact(run: seq<Input>)
    requires DownFirst(run)
    ensures Exact(DeviceAfter(run).keys, Count(TableAfter(run)))
    ensures Announced(run) && Unshown(run) == 0
  {
    if run != [] {
      DownFirstIsExact(run[..|run| - 1]);
    }
    AnnouncedShows(run);
    ShownPlusUnshown(run);
  }

  /** At every moment, the key for the live number of fingers is asserted, and no other. */
  ghost predicate ExactAllAlong(run: seq<Input>) {
    Exact(DeviceAfter(run).keys, Count(TableAfter(run))) && (run == [] || ExactAllAlong(run[..|run| - 1]))
  }

  /** A pointer that takes a slot without a DOWN is not shown. */
  lemma {:induction false} QuietPointerIsNotShown(run: seq<Input>, i: Input)
    requires TakesSlot(TableAfter(run), i) && !i.event.kind.Down?
    requires Exact(DeviceAfter(run).keys, Count(TableAfter(run)))
    ensures !Exact(DeviceAfter(run + [i]).keys, Count(TableAfter(run + [i])))
  {
    KeysStep(run, i);
    NextCount(TableAfter(run), i);
    var n := Count(TableAfter(run)) + 1;
    assert !Asserted(DeviceAfter(run).keys, n);
  }

  /** So the finger keys are exact at all times if and only if every pointer first appears in a DOWN. */
  lemma {:induction false} ExactAllAlongIffDownFirst(run: seq<Input>)
    ensures ExactAllAlong(run) <==> DownFirst(run)
  {
    if DownFirst(run) {
      DownFirstIsExact(run);
    }
    if run != [] {
      var before, i := run[..|run| - 1], run[|run| - 1];
      assert run == before + [i];
      ExactAllAlongIffDownFirst(before);
      if ExactAllAlong(before) && TakesSlot(TableAfter(before), i) && !i.event.kind.Down? {
        QuietPointerIsNotShown(before, i);
      }
    }
  }

  // -------------------------------------------------------------------------
  // BTN_TOUCH
  // -------------------------------------------------------------------------

  /** The last event that rewrote the keys was a DOWN. */
  predicate LastUpdateDown(run: seq<Input>) {
    run != [] &&
    var before, i := run[..|run| - 1], run[|run| - 1];
    if IsUpdate(TableAfter(before), i) then i.event.kind.Down? else LastUpdateDown(before)
  }

  /** Over every stream, BTN_TOUCH tells what rewrote the keys last, and nothing else. */
  lemma {:induction false} TouchKeyExactly(run: seq<Input>)
    ensures KEY_TOUCH in DeviceAfter(run).keys <==> LastUpdateDown(run)
  {
    if run != [] {
      var before, i := run[..|run| - 1], run[|run| - 1];
      assert run == before + [i];
      TouchKeyExactly(before);
      KeysStep(before, i);
      if IsUpdate(TableAfter(before), i) {
        UpdateAssertsCount(before, i);
      }
    }
  }

  /** At every moment, BTN_TOUCH is asserted exactly while a finger is there. */
  ghost predicate TouchAllAlong(run: seq<Input>) {
    && (KEY_TOUCH in DeviceAfter(run).keys <==> Count(TableAfter(run)) > 0)
    && (run == [] || TouchAllAlong(run[..|run| - 1]))
  }

  /** The first finger comes with a DOWN, and a finger is only lifted as the last. */
  predicate OneByOne(run: seq<Input>) {
    run == [] ||
    var before, i := run[..|run| - 1], run[|run| - 1];
    && OneByOne(before)
    && (TakesSlot(TableAfter(before), i) && Count(TableAfter(before)) == 0 ==> i.event.kind.Down?)
    && (Releases(TableAfter(before), i) ==> Count(TableAfter(run)) == 0)
  }

  lemma {:induction false} TouchAllAlongIffOneByOne(run: seq<Input>)
    ensures TouchAllAlong(run) <==> OneByOne(run)
  {
    if run != [] {
      var before, i := run[..|run| - 1], run[|run| - 1];
      assert run == before + [i];
      TouchAllAlongIffOneByOne(before);
      KeysStep(before, i);
      NextCount(TableAfter(before), i);
      if IsUpdate(TableAfter(before), i) {
        UpdateAssertsCount(before, i);
      }
    }
  }

  // -------------------------------------------------------------------------
  // Runs that fail
  // -------------------------------------------------------------------------

  function TouchOf(kind: Kind, id: int): Input {
    Input(PointerEvent(kind, id, 0.0, 0.0, 0.0, 0.0, 0.0, 0, 0, false, false), Some(Rect(0.0, 0.0, 1.0, 1.0)))
  }

  lemma {:induction false} FreeSlot(t: seq<Option<int>>)
    requires Count(t) < |t|
    ensures None in t
    decreases |t|
  {
    if t[0].Some? {
      FreeSlot(t[1..]);
    }
  }

  lemma {:induction false} NewPointer(run: seq<Input>, i: Input, ids: set<int>)
    requires i.geometry.Some? && Contact(i.event.kind) && i.event.id !in ids
    requires forall x | x in TableAfter(run) && x.Some? :: x.value in ids
    requires Count(TableAfter(run)) < SLOTS
    ensures var t, u := TableAfter(run), TableAfter(run + [i]);
      && TakesSlot(t, i) && Count(u) == Count(t) + 1
      && (forall x | x in u && x.Some? :: x.value in ids + {i.event.id})
  {
    var t := TableAfter(run);
    assert (run + [i])[..|run|] == run;
    FreeSlot(t);
    assert t[0..] == t;
    NextCount(t, i);
    var u, slot := NextTable(t, i), Assign(t, i.event.id).value;
    forall x | x in u && x.Some? ensures x.value in ids + {i.event.id} {
      var k :| 0 <= k < |u| && u[k] == x;
      if k != slot {
        assert t[k] == x;
      }
    }
  }

  lemma {:induction false} ShownAfter(run: seq<Input>, i: Input)
    ensures var all, update := run + [i], IsUpdate(TableAfter(run), i);
      && Shown(all) == (if update then Count(TableAfter(all)) else Shown(run))
      && Unshown(all) == (if update then 0 else Unshown(run) + if TakesSlot(TableAfter(run), i) then 1 else 0)
  {
    assert (run + [i])[..|run|] == run;
  }

  lemma {:induction false} TwoUnshown() returns (run: seq<Input>)
    ensures |run| == 3 && Shown(run) == 1 && Unshown(run) == 2 && Count(TableAfter(run)) == 3
  {
    var r1 := [] + [TouchOf(Down, 1)];
    var r2 := r1 + [TouchOf(Move, 2)];
    NewPointer([], TouchOf(Down, 1), {});
    ShownAfter([], TouchOf(Down, 1));
    NewPointer(r1, TouchOf(Move, 2), {} + {1});
    ShownAfter(r1, TouchOf(Move, 2));
    NewPointer(r2, TouchOf(Move, 3), {} + {1} + {2});
    ShownAfter(r2, TouchOf(Move, 3));
    run := r2 + [TouchOf(Move, 3)];
  }

  /** One finger goes down, two others are first seen moving: at the next DOWN the key for one stays asserted. */
  lemma {:induction false} StaleKeys() returns (run: seq<Input>)
    ensures |run| == 4 && !AlwaysExact(run)
  {
    var before := TwoUnshown();
    run := before + [TouchOf(Down, 1)];
    assert run[..3] == before;
    FreeSlot(TableAfter(before));
    assert IsUpdate(TableAfter(before), TouchOf(Down, 1));
    ExactIffAnnounced(run);
  }

  /** Two fingers go down, one is lifted: a finger is still there, and BTN_TOUCH is not. */
  lemma {:induction false} TouchKeyIsClearedEarly() returns (run: seq<Input>)
    ensures |run| == 3 && Count(TableAfter(run)) == 1 && KEY_TOUCH !in DeviceAfter(run).keys
  {
    var r1 := [] + [TouchOf(Down, 1)];
    var r2 := r1 + [TouchOf(Down, 2)];
    NewPointer([], TouchOf(Down, 1), {});
    NewPointer(r1, TouchOf(Down, 2), {} + {1});
    run := r2 + [TouchOf(Up, 2)];
    assert run[..2] == r2 && r2[..1] == r1;
    var t, i := TableAfter(r2), TouchOf(Up, 2);
    assert t == NextTable(TableAfter(r1), TouchOf(Down, 2));
    assert t[Assign(TableAfter(r1), 2).value] == Some(2);
    assert t[0..] == t && Some(2) in t;
    assert Releases(t, i);
    NextCount(t, i);
    UpdateAssertsCount(r2, i);
  }

  /** A finger first seen moving: it is there, and BTN_TOUCH is not. */
  lemma {:induction false} TouchKeyIsNeverSet() returns (run: seq<Input>)
    ensures |run| == 1 && Count(TableAfter(run)) == 1 && KEY_TOUCH !in DeviceAfter(run).keys
  {
    run := [] + [TouchOf(Move, 1)];
    NewPointer([], TouchOf(Move, 1), {});
    KeysStep([], TouchOf(Move, 1));
  }
}
