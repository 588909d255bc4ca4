/** The key dispatch of the sketch's main loop as a state machine over values:
    which state one key leads to, and what it draws on the screen. */
module Dispatch {
  import opened LcdGrid
  import opened Devices
  import opened Display
  import opened DecimalFormat

  /** The keypad's answer to one poll: a button, no button (KEY_NO) or nothing
      ready yet (KEY_WAIT). */
  datatype Key = Up | Down | Left | Right | Select | NoKey | Wait

  /** The controller's state: focus, step size, attenuation and filter. */
  datatype Panel = Panel(attFocused: bool, attUnity: bool, value: nat, filter: nat)

  /** What the devices and the display are, fixed at setup: the attenuator's
      maximum, the filter bank's tables, the longest filter name and the
      display's width. */
  datatype Hardware = Hardware(maxAtt: nat, nextOf: seq<nat>, prevOf: seq<nat>, names: seq<string>, maxNameLen: nat, cols: nat)

  /** The assumptions on the devices: 10 <= maxAtt <= 255, consistent filter
      tables, and a filter field that starts on the screen. */
  predicate HardwareOk(hw: Hardware) {
    10 <= hw.maxAtt <= 255
    && BankOk(hw.nextOf, hw.prevOf, hw.names, hw.maxNameLen)
    && hw.maxNameLen + 3 <= hw.cols
  }

  predicate InRange(p: Panel, hw: Hardware) {
    p.value <= hw.maxAtt && p.filter < |hw.names|
  }

  /** Tens mode is only ever on at 10 dB or more. */
  predicate TensInvariant(p: Panel) {
    !p.attUnity ==> p.value >= 10
  }

  /** The state after setup: attenuator focused, unity steps. */
  function Initial(value: nat, filter: nat): (p: Panel)
    ensures TensInvariant(p)
  {
    Panel(true, true, value, filter)
  }

  function StepSize(p: Panel): nat {
    if !p.attUnity then 10 else 1
  }

  /** One pass of the switch in loop(). */
  function Step(p: Panel, k: Key, hw: Hardware): (q: Panel)
    requires HardwareOk(hw) && InRange(p, hw)
    ensures InRange(q, hw)
    ensures TensInvariant(p) ==> TensInvariant(q)
  {
    match k
    case Up =>
      if p.attFocused then p.(value := IncClamp(p.value, StepSize(p), hw.maxAtt))
      else p.(filter := hw.nextOf[p.filter])
    case Down =>
      if p.attFocused then
        var v := DecClamp(p.value, StepSize(p));
        p.(value := v, attUnity := if !p.attUnity && v < 10 then true else p.attUnity)
      else p.(filter := hw.prevOf[p.filter])
    case Left =>
      if !p.attFocused then p
      else if p.value >= 10 then p.(attUnity := !p.attUnity)
      else p.(value := DecClamp(p.value, 10))
    case Right =>
      if !p.attFocused then p
      else if p.value >= 10 then p.(attUnity := !p.attUnity)
      else p.(value := IncClamp(p.value, 10, hw.maxAtt))
    case Select => p.(attFocused := !p.attFocused)
    case NoKey => p
    case Wait => p
  }

  function FilterName(p: Panel, hw: Hardware): string
    requires HardwareOk(hw) && InRange(p, hw)
  {
    hw.names[p.filter]
  }

  function AttDraw(p: Panel): seq<Op> {
    AttOps(p.value, p.attFocused, p.attUnity)
  }

  function FilterDraw(p: Panel, hw: Hardware): seq<Op>
    requires HardwareOk(hw) && InRange(p, hw)
  {
    FilterOps(hw.cols, hw.maxNameLen, p.attFocused, FilterName(p, hw))
  }

  /** displayUpdate for state p. */
  function Redraw(p: Panel, hw: Hardware): seq<Op>
    requires HardwareOk(hw) && InRange(p, hw)
  {
    UpdateOps(p.value, p.attFocused, p.attUnity, hw.cols, hw.maxNameLen, FilterName(p, hw))
  }

  /** What one pass of the switch draws: nothing only when the state is
      unchanged, a full redraw whenever the focus moves, and otherwise either
      a full redraw or the focused region alone. */
  function StepOps(p: Panel, k: Key, hw: Hardware): (r: seq<Op>)
    requires HardwareOk(hw) && InRange(p, hw)
    ensures var q := Step(p, k, hw);
      && (r == [] ==> q == p)
      && (q.attFocused != p.attFocused ==> r == Redraw(q, hw))
      && (r == [] || r == Redraw(q, hw) || r == (if q.attFocused then AttDraw(q) else FilterDraw(q, hw)))
  {
    var q := Step(p, k, hw);
    match k
    case Up => if p.attFocused then AttDraw(q) else FilterDraw(q, hw)
    case Down => if p.attFocused then AttDraw(q) else FilterDraw(q, hw)
    case Left => if p.attFocused then AttDraw(q) else []
    case Right => if p.attFocused then AttDraw(q) else Redraw(q, hw)
    case Select => Redraw(q, hw)
    case NoKey => []
    case Wait => []
  }

  /** The state after a sequence of polls. */
  function Run(p: Panel, keys: seq<Key>, hw: Hardware): (q: Panel)
    requires HardwareOk(hw) && InRange(p, hw)
    ensures InRange(q, hw)
    decreases |keys|
  {
    if keys == [] then p else Run(Step(p, keys[0], hw), keys[1..], hw)
  }

  /** UP on the attenuator steps by 10 in tens mode and 1 in unity mode and
      touches nothing else. */
  lemma UpOnAttenuator(p: Panel, hw: Hardware)
    requires HardwareOk(hw) && InRange(p, hw) && p.attFocused
    ensures Step(p, Up, hw) == p.(value := IncClamp(p.value, if p.attUnity then 1 else 10, hw.maxAtt))
  {
  }

  /** DOWN on the attenuator steps down by 10 or 1; tens mode falls back to
      unity exactly when the value drops below 10. */
  lemma DownOnAttenuator(p: Panel, hw: Hardware)
    requires HardwareOk(hw) && InRange(p, hw) && p.attFocused
    ensures var q := Step(p, Down, hw);
      && q.value == DecClamp(p.value, if p.attUnity then 1 else 10)
      && q.attUnity == (p.attUnity || q.value < 10)
      && q.attFocused && q.filter == p.filter
  {
  }

  /** LEFT and RIGHT on the attenuator: from 10 dB up they switch the step
      size and keep the value; below 10 dB LEFT drops to 0 and RIGHT adds 10,
      keeping the step size. The choice is made on the value before the key. */
  lemma LeftRightOnAttenuator(p: Panel, k: Key, hw: Hardware)
    requires HardwareOk(hw) && InRange(p, hw) && p.attFocused && (k == Left || k == Right)
    ensures var q := Step(p, k, hw);
      && q.attFocused && q.filter == p.filter
      && (p.value >= 10 ==> q.value == p.value && q.attUnity == !p.attUnity)
      && (p.value < 10 ==>
            q.attUnity == p.attUnity && q.value == (if k == Left then 0 else IncClamp(p.value, 10, hw.maxAtt)))
  {
  }

  /** With the filter focused, UP and DOWN move only the filter selection and
      every other key except SELECT changes nothing. */
  lemma KeysOnFilter(p: Panel, k: Key, hw: Hardware)
    requires HardwareOk(hw) && InRange(p, hw) && !p.attFocused && k != Select
    ensures var q := Step(p, k, hw);
      && q.value == p.value && q.attUnity == p.attUnity && !q.attFocused
      && q.filter == (if k == Up then hw.nextOf[p.filter] else if k == Down then hw.prevOf[p.filter] else p.filter)
  {
  }

  /** KEY_NO and KEY_WAIT change nothing and draw nothing. */
  lemma IdleKeys(p: Panel, k: Key, hw: Hardware)
    requires HardwareOk(hw) && InRange(p, hw) && (k == NoKey || k == Wait)
    ensures Step(p, k, hw) == p && StepOps(p, k, hw) == []
  {
  }

  /** SELECT flips only the focus, so two of them give the state back; each
      one redraws the whole screen. */
  lemma SelectTwice(p: Panel, hw: Hardware)
    requires HardwareOk(hw) && InRange(p, hw)
    ensures Step(p, Select, hw) == p.(attFocused := !p.attFocused)
    ensures Step(Step(p, Select, hw), Select, hw) == p
    ensures StepOps(p, Select, hw) == Redraw(Step(p, Select, hw), hw)
  {
  }

  /** Tens mode never shows below 10 dB, whatever keys are pressed. */
  lemma {:induction false} RunKeepsTensInvariant(p: Panel, keys: seq<Key>, hw: Hardware)
    requires HardwareOk(hw) && InRange(p, hw) && TensInvariant(p)
    ensures TensInvariant(Run(p, keys, hw))
    decreases |keys|
  {
    if keys != [] {
      RunKeepsTensInvariant(Step(p, keys[0], hw), keys[1..], hw);
    }
  }

  lemma {:induction false} RunAppend(p: Panel, keys: seq<Key>, more: seq<Key>, hw: Hardware)
    requires HardwareOk(hw) && InRange(p, hw)
    ensures Run(p, keys + more, hw) == Run(Run(p, keys, hw), more, hw)
    decreases |keys|
  {
    if keys != [] {
      assert (keys + more)[1..] == keys[1..] + more;
      RunAppend(Step(p, keys[0], hw), keys[1..], more, hw);
    } else {
      assert keys + more == more;
    }
  }

  /** 5 dB, unity: RIGHT gives 15 dB; RIGHT again switches to tens at 15 dB;
      DOWN gives 5 dB and unity again. */
  lemma ScenarioRightRightDown(hw: Hardware, filter: nat)
    requires HardwareOk(hw) && 15 <= hw.maxAtt && filter < |hw.names|
    ensures Run(Panel(true, true, 5, filter), [Right], hw) == Panel(true, true, 15, filter)
    ensures Run(Panel(true, true, 5, filter), [Right, Right], hw) == Panel(true, false, 15, filter)
    ensures Run(Panel(true, true, 5, filter), [Right, Right, Down], hw) == Panel(true, true, 5, filter)
  {
    var p := Panel(true, true, 5, filter);
    RunAppend(p, [Right], [Right], hw);
    assert [Right, Right] == [Right] + [Right];
    assert [Right, Right, Down] == [Right, Right] + [Down];
    RunAppend(p, [Right, Right], [Down], hw);
  }

  /** The screen shows state p: every cell is as a full redraw would leave
      it. */
  ghost predicate Shows(log: seq<Op>, p: Panel, hw: Hardware)
    requires HardwareOk(hw) && InRange(p, hw)
  {
    forall col: int, row: int :: CellAt(log, col, row) == CellAt(Redraw(p, hw), col, row)
  }

  /** The partial redraws are enough: when the screen showed the state before
      a key, it shows the state after it, though only displayAtt or only
      displayFilter ran. This needs the value field to keep its width, so it
      is stated for attenuators that stop below 100 dB. */
  lemma StepKeepsScreen(log: seq<Op>, p: Panel, k: Key, hw: Hardware)
    requires HardwareOk(hw) && InRange(p, hw) && hw.maxAtt < 100
    requires Shows(log, p, hw)
    ensures Shows(log + StepOps(p, k, hw), Step(p, k, hw), hw)
  {
    var q := Step(p, k, hw);
    var ops := StepOps(p, k, hw);
    forall col: int, row: int
      ensures CellAt(log + ops, col, row) == CellAt(Redraw(q, hw), col, row)
    {
      CellAtScreen(log, p, k, hw, col, row);
    }
  }

  /** Why StepKeepsScreen stops below 100 dB: at a maximum of 100 dB, DOWN
      from 100 dB in unity mode prints "-99 dB" one cell shorter than
      "-100 dB", and displayAtt leaves the 'B' of the old text on (8, 0),
      where a full redraw of the new state shows a blank. */
  lemma ThreeDigitsLeaveStaleCell()
    ensures var hw := Hardware(100, [0], [0], [""], 0, 16);
      var p := Panel(true, true, 100, 0);
      && HardwareOk(hw) && InRange(p, hw)
      && Shows(Redraw(p, hw), p, hw)
      && CellAt(Redraw(p, hw) + StepOps(p, Down, hw), 8, 0) == 'B'
      && CellAt(Redraw(Step(p, Down, hw), hw), 8, 0) == Blank
      && !Shows(Redraw(p, hw) + StepOps(p, Down, hw), Step(p, Down, hw), hw)
  {
    var hw := Hardware(100, [0], [0], [""], 0, 16);
    var p := Panel(true, true, 100, 0);
    var q := Step(p, Down, hw);
    assert q == Panel(true, true, 99, 0);
    assert Decimal(100) == "100" && Decimal(99) == "99";
    RedrawCell(p, hw, 8, 0);
    RedrawCell(q, hw, 8, 0);
    CellAtAttOps(Redraw(p, hw), 99, true, true, 8, 0);
  }

  /** Every cell of the screen after a full redraw of state p. */
  lemma RedrawCell(p: Panel, hw: Hardware, col: int, row: int)
    requires HardwareOk(hw) && InRange(p, hw)
    ensures var att := AttAt(p.value, p.attFocused, p.attUnity, col, row);
      var filter := FilterAt(hw.cols, hw.maxNameLen, p.attFocused, FilterName(p, hw), col, row);
      CellAt(Redraw(p, hw), col, row)
        == if p.attFocused then Over(att, Over(filter, Blank)) else Over(filter, Over(att, Blank))
  {
    assert [] + Redraw(p, hw) == Redraw(p, hw);
    RedrawFocusedOnTop([], p.value, p.attFocused, p.attUnity, hw.cols, hw.maxNameLen, FilterName(p, hw), col, row);
  }

  /** A full redraw does not depend on what the screen showed before. */
  lemma RedrawForgets(log: seq<Op>, p: Panel, hw: Hardware, col: int, row: int)
    requires HardwareOk(hw) && InRange(p, hw)
    ensures CellAt(log + Redraw(p, hw), col, row) == CellAt(Redraw(p, hw), col, row)
  {
    ClearForgets(log, Redraw(p, hw), col, row);
  }

  /** displayAtt alone brings the screen from p to q when focus and filter are
      unchanged and the value field keeps its width. */
  lemma AttOnlyRedraw(log: seq<Op>, p: Panel, q: Panel, hw: Hardware, col: int, row: int)
    requires HardwareOk(hw) && InRange(p, hw) && InRange(q, hw) && p.value < 100 && q.value < 100
    requires p.attFocused && q.attFocused && q.filter == p.filter
    requires CellAt(log, col, row) == CellAt(Redraw(p, hw), col, row)
    ensures CellAt(log + AttDraw(q), col, row) == CellAt(Redraw(q, hw), col, row)
  {
    CellAtAttOps(log, q.value, true, q.attUnity, col, row);
    RedrawCell(p, hw, col, row);
    RedrawCell(q, hw, col, row);
    AttTextLayout(p.value, true);
    AttTextLayout(q.value, true);
  }

  /** displayFilter alone brings the screen from p to q when the attenuator
      state is unchanged; every filter name is padded to the same width. */
  lemma FilterOnlyRedraw(log: seq<Op>, p: Panel, q: Panel, hw: Hardware, col: int, row: int)
    requires HardwareOk(hw) && InRange(p, hw) && InRange(q, hw)
    requires !p.attFocused && !q.attFocused && q.value == p.value && q.attUnity == p.attUnity
    requires CellAt(log, col, row) == CellAt(Redraw(p, hw), col, row)
    ensures CellAt(log + FilterDraw(q, hw), col, row) == CellAt(Redraw(q, hw), col, row)
  {
    CellAtFilterOps(log, hw.cols, hw.maxNameLen, false, FilterName(q, hw), col, row);
    RedrawCell(p, hw, col, row);
    RedrawCell(q, hw, col, row);
    FilterTextLayout(hw.cols, hw.maxNameLen, false, FilterName(p, hw));
    FilterTextLayout(hw.cols, hw.maxNameLen, false, FilterName(q, hw));
  }

  lemma CellAtScreen(log: seq<Op>, p: Panel, k: Key, hw: Hardware, col: int, row: int)
    requires HardwareOk(hw) && InRange(p, hw) && hw.maxAtt < 100
    requires Shows(log, p, hw)
    ensures CellAt(log + StepOps(p, k, hw), col, row) == CellAt(Redraw(Step(p, k, hw), hw), col, row)
  {
    var q := Step(p, k, hw);
    assert CellAt(log, col, row) == CellAt(Redraw(p, hw), col, row);
    if k == Select || (k == Right && !p.attFocused) {
      RedrawForgets(log, q, hw, col, row);
    } else if k == NoKey || k == Wait || (k == Left && !p.attFocused) {
      assert log + StepOps(p, k, hw) == log;
    } else if p.attFocused {
      AttOnlyRedraw(log, p, q, hw, col, row);
    } else {
      FilterOnlyRedraw(log, p, q, hw, col, row);
    }
  }

  /** The screen keeps showing the state over any sequence of keys. */
  ghost function RunOps(p: Panel, keys: seq<Key>, hw: Hardware): seq<Op>
    requires HardwareOk(hw) && InRange(p, hw)
    decreases |keys|
  {
    if keys == [] then [] else StepOps(p, keys[0], hw) + RunOps(Step(p, keys[0], hw), keys[1..], hw)
  }

  /** Running the keys from position i is one step on keys[i], then the
      rest. */
  lemma RunFrom(p: Panel, keys: seq<Key>, i: nat, hw: Hardware)
    requires HardwareOk(hw) && InRange(p, hw) && i < |keys|
    ensures Run(p, keys[i..], hw) == Run(Step(p, keys[i], hw), keys[i + 1..], hw)
    ensures RunOps(p, keys[i..], hw) == StepOps(p, keys[i], hw) + RunOps(Step(p, keys[i], hw), keys[i + 1..], hw)
  {
  }

  lemma {:induction false} RunKeepsScreen(log: seq<Op>, p: Panel, keys: seq<Key>, hw: Hardware)
    requires HardwareOk(hw) && InRange(p, hw) && hw.maxAtt < 100
    requires Shows(log, p, hw)
    ensures Shows(log + RunOps(p, keys, hw), Run(p, keys, hw), hw)
    decreases |keys|
  {
    if keys != [] {
      var q := Step(p, keys[0], hw);
      StepKeepsScreen(log, p, keys[0], hw);
      RunKeepsScreen(log + StepOps(p, keys[0], hw), q, keys[1..], hw);
      assert log + RunOps(p, keys, hw) == log + StepOps(p, keys[0], hw) + RunOps(q, keys[1..], hw);
    } else {
      assert log + RunOps(p, keys, hw) == log;
    }
  }
}
