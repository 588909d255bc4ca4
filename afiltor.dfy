/** The sketch itself: the controller's global state (the two flags and the
    longest filter name), setup, and one pass of the key switch in loop(),
    each case drawing through the routines of Display. */
module AFiltor {
  import opened LcdGrid
  import opened Devices
  import opened Display
  import opened Dispatch

  class Controller {
    /** mKeypad, mAtt and mFilters. */
    const keypad: Lcd
    const att: Attenuator
    const filters: FilterBank
    /** mAttUnity: UP and DOWN step by 1 dB, else by 10 dB. */
    var attUnity: bool
    /** mAttFocused: the attenuator, else the filter, takes the arrow keys. */
    var attFocused: bool
    /** mFilterMaxLen, read from the filter bank at setup. */
    const filterMaxLen: nat

    function Hw(): Hardware {
      Hardware(att.max, filters.nextOf, filters.prevOf, filters.names, filterMaxLen, keypad.cols)
    }

    function State(): Panel
      reads this, att, filters
    {
      Panel(attFocused, attUnity, att.value, filters.selected)
    }

    /** The devices keep their contracts and the filter field fits the
        display. */
    ghost predicate Ready()
      reads this, att, filters
    {
      att.Valid() && filters.Valid() && filterMaxLen == filters.maxNameLength && HardwareOk(Hw())
      && InRange(State(), Hw())
    }

    /** Ready, tens mode only at 10 dB or more, and, for an attenuator that
        stays below 100 dB, a screen that shows the current state. */
    ghost predicate Valid()
      reads this, att, filters, keypad
    {
      Ready() && keypad.Valid() && TensInvariant(State())
      && (att.max < 100 ==> Shows(keypad.log, State(), Hw()))
    }

    /** setup(): record the longest filter name and draw the screen. The
        banner is not part of this model. */
    constructor (keypad: Lcd, att: Attenuator, filters: FilterBank)
      requires att.Valid() && filters.Valid() && keypad.Valid() && filters.maxNameLength + 3 <= keypad.cols
      modifies keypad
      ensures Valid()
      ensures this.keypad == keypad && this.att == att && this.filters == filters
      ensures State() == Initial(att.value, filters.selected)
      ensures att.value == old(att.value) && filters.selected == old(filters.selected)
      ensures keypad.log == old(keypad.log) + Redraw(State(), Hw())
    {
      this.keypad := keypad;
      this.att := att;
      this.filters := filters;
      attUnity := true;
      attFocused := true;
      filterMaxLen := filters.maxNameLength;
      new;
      DisplayUpdate(keypad, att.value, attFocused, attUnity, filterMaxLen, filters.FilterName());
      forall col: int, row: int
        ensures CellAt(keypad.log, col, row) == CellAt(Redraw(State(), Hw()), col, row)
      {
        RedrawForgets(old(keypad.log), State(), Hw(), col, row);
      }
    }

    /** One pass of loop(): the key switch, after which the screen still
        shows the state. */
    method HandleKey(k: Key)
      requires Valid()
      modifies this, att, filters, keypad
      ensures Valid()
      ensures State() == Step(old(State()), k, Hw())
      ensures keypad.log == old(keypad.log) + StepOps(old(State()), k, Hw())
    {
      ghost var p := State();
      Switch(k);
      if att.max < 100 {
        StepKeepsScreen(old(keypad.log), p, k, Hw());
      }
    }

    /** loop() over a finite stretch of polls: one pass of the switch per key
        returned by the keypad, in order. */
    method Loop(keys: seq<Key>)
      requires Valid()
      modifies this, att, filters, keypad
      ensures Valid()
      ensures State() == Run(old(State()), keys, Hw())
      ensures keypad.log == old(keypad.log) + RunOps(old(State()), keys, Hw())
    {
      ghost var p := State();
      ghost var log0 := keypad.log;
      for i := 0 to |keys|
        invariant Valid()
        invariant Run(State(), keys[i..], Hw()) == Run(p, keys, Hw())
        invariant keypad.log + RunOps(State(), keys[i..], Hw()) == log0 + RunOps(p, keys, Hw())
      {
        ghost var before := keypad.log;
        ghost var s := State();
        RunFrom(s, keys, i, Hw());
        AppendAssoc(before, StepOps(s, keys[i], Hw()), RunOps(Step(s, keys[i], Hw()), keys[i + 1..], Hw()));
        HandleKey(keys[i]);
      }
      assert keypad.log + RunOps(State(), keys[|keys|..], Hw()) == keypad.log;
    }

    /** The switch in loop() for key k. KEY_WAIT and KEY_NO do nothing. */
    method Switch(k: Key)
      requires Ready() && keypad.Valid()
      modifies this, att, filters, keypad
      ensures Ready() && keypad.Valid()
      ensures State() == Step(old(State()), k, Hw())
      ensures keypad.log == old(keypad.log) + StepOps(old(State()), k, Hw())
    {
      match k {
        case Up => OnUp();
        case Down => OnDown();
        case Left => OnLeft();
        case Right => OnRight();
        case Select => OnSelect();
        case NoKey =>
        case Wait =>
      }
    }

    /** KEY_UP: one step up on the attenuator, or the next filter. */
    method OnUp()
      requires Ready() && keypad.Valid()
      modifies att, filters, keypad
      ensures Ready() && keypad.Valid()
      ensures State() == Step(old(State()), Up, Hw())
      ensures keypad.log == old(keypad.log) + StepOps(old(State()), Up, Hw())
    {
      if attFocused {
        att.Inc(if !attUnity then 10 else 1);
        DisplayAtt(keypad, att.value, attFocused, attUnity);
      } else {
        filters.Next();
        DisplayFilter(keypad, filterMaxLen, attFocused, filters.FilterName());
      }
    }

    /** KEY_DOWN: one step down on the attenuator, back to unity steps below
        10 dB, or the previous filter. */
    method OnDown()
      requires Ready() && keypad.Valid()
      modifies this, att, filters, keypad
      ensures Ready() && keypad.Valid()
      ensures State() == Step(old(State()), Down, Hw())
      ensures keypad.log == old(keypad.log) + StepOps(old(State()), Down, Hw())
    {
      ghost var q := Step(State(), Down, Hw());
      if attFocused {
        att.Dec(if !attUnity then 10 else 1);
        if attUnity == false && att.value < 10 {
          attUnity := true;
        }
        assert State() == q;
        assert StepOps(old(State()), Down, Hw()) == AttDraw(q);
        DisplayAtt(keypad, att.value, attFocused, attUnity);
      } else {
        filters.Previous();
        DisplayFilter(keypad, filterMaxLen, attFocused, filters.FilterName());
      }
    }

    /** KEY_LEFT: toggle the step size at 10 dB or more, else 10 dB down. */
    method OnLeft()
      requires Ready() && keypad.Valid()
      modifies this, att, keypad
      ensures Ready() && keypad.Valid()
      ensures State() == Step(old(State()), Left, Hw())
      ensures keypad.log == old(keypad.log) + StepOps(old(State()), Left, Hw())
    {
      if attFocused {
        if att.value >= 10 {
          attUnity := !attUnity;
        } else {
          att.Dec(10);
        }
        DisplayAtt(keypad, att.value, attFocused, attUnity);
      }
    }

    /** KEY_RIGHT: toggle the step size at 10 dB or more, else 10 dB up. With
        the filter focused it shows the free-memory screen and then redraws;
        only the redraw is modelled. */
    method OnRight()
      requires Ready() && keypad.Valid()
      modifies this, att, keypad
      ensures Ready() && keypad.Valid()
      ensures State() == Step(old(State()), Right, Hw())
      ensures keypad.log == old(keypad.log) + StepOps(old(State()), Right, Hw())
    {
      if attFocused {
        if att.value >= 10 {
          attUnity := !attUnity;
        } else {
          att.Inc(10);
        }
        DisplayAtt(keypad, att.value, attFocused, attUnity);
      } else {
        DisplayUpdate(keypad, att.value, attFocused, attUnity, filterMaxLen, filters.FilterName());
      }
    }

    /** KEY_SELECT: move the focus to the other region and redraw. */
    method OnSelect()
      requires Ready() && keypad.Valid()
      modifies this, keypad
      ensures Ready() && keypad.Valid()
      ensures State() == Step(old(State()), Select, Hw())
      ensures keypad.log == old(keypad.log) + StepOps(old(State()), Select, Hw())
    {
      attFocused := !attFocused;
      DisplayUpdate(keypad, att.value, attFocused, attUnity, filterMaxLen, filters.FilterName());
    }
  }
}
