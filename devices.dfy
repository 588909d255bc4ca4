/** The two devices the controller drives. Their drivers are external
    libraries whose source is not part of this model; what is written here is
    the contract the controller relies on, not their implementation:
    - the attenuator holds a whole number of dB in [0, max] and clamps every
      step to that range;
    - the filter bank holds the index of the selected filter and moves it with
      Next and Previous to a valid index, each filter having a name no
      longer than the bank's maximum name length. */
module Devices {

  /** Attenuation after stepping up by step: the whole step when it fits
      under max, otherwise max. */
  function IncClamp(v: nat, step: nat, max: nat): (r: nat)
    ensures v <= max ==> v <= r <= max
    ensures r < max ==> r == v + step
    ensures v + step <= max ==> r == v + step
  {
    if v + step <= max then v + step else max
  }

  /** Attenuation after stepping down by step: the whole step when it fits
      above 0, otherwise 0. */
  function DecClamp(v: nat, step: nat): (r: nat)
    ensures r <= v
    ensures r > 0 ==> r == v - step
    ensures step <= v ==> r == v - step
  {
    if step <= v then v - step else 0
  }

  /** The filter bank's tables: successor and predecessor of each filter and
      its display name, all indexed by filter. */
  predicate BankOk(nextOf: seq<nat>, prevOf: seq<nat>, names: seq<string>, maxNameLength: nat) {
    |names| > 0 && |nextOf| == |names| && |prevOf| == |names|
    && (forall i :: 0 <= i < |nextOf| ==> nextOf[i] < |names|)
    && (forall i :: 0 <= i < |prevOf| ==> prevOf[i] < |names|)
    && (forall i :: 0 <= i < |names| ==> |names[i]| <= maxNameLength)
  }

  /** The step attenuator; its value is read back as a uint8_t, so max is at
      most 255. */
  class Attenuator {
    const max: nat
    var value: nat

    ghost predicate Valid()
      reads this
    {
      10 <= max <= 255 && value <= max
    }

    constructor (max: nat, value: nat)
      requires 10 <= max <= 255 && value <= max
      ensures Valid() && this.max == max && this.value == value
    {
      this.max := max;
      this.value := value;
    }

    method Inc(step: nat)
      requires Valid()
      modifies this
      ensures Valid() && value == IncClamp(old(value), step, max)
    {
      value := IncClamp(value, step, max);
    }

    method Dec(step: nat)
      requires Valid()
      modifies this
      ensures Valid() && value == DecClamp(old(value), step)
    {
      value := DecClamp(value, step);
    }
  }

  /** The filter board: which filter is switched in. */
  class FilterBank {
    const nextOf: seq<nat>
    const prevOf: seq<nat>
    const names: seq<string>
    const maxNameLength: nat
    var selected: nat

    ghost predicate Valid()
      reads this
    {
      BankOk(nextOf, prevOf, names, maxNameLength) && selected < |names|
    }

    constructor (nextOf: seq<nat>, prevOf: seq<nat>, names: seq<string>, maxNameLength: nat, selected: nat)
      requires BankOk(nextOf, prevOf, names, maxNameLength) && selected < |names|
      ensures Valid() && this.selected == selected
      ensures this.nextOf == nextOf && this.prevOf == prevOf
      ensures this.names == names && this.maxNameLength == maxNameLength
    {
      this.nextOf := nextOf;
      this.prevOf := prevOf;
      this.names := names;
      this.maxNameLength := maxNameLength;
      this.selected := selected;
    }

    /** The name of the selected filter. */
    function FilterName(): (s: string)
      reads this
      requires Valid()
      ensures |s| <= maxNameLength
    {
      names[selected]
    }

    method Next()
      requires Valid()
      modifies this
      ensures Valid() && selected == nextOf[old(selected)]
    {
      selected := nextOf[selected];
    }

    method Previous()
      requires Valid()
      modifies this
      ensures Valid() && selected == prevOf[old(selected)]
    {
      selected := prevOf[selected];
    }
  }
}
