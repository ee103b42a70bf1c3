/**
 * `CombatUpgrades`: a fixed-size bitset of researched upgrades, addressed
 * through the position of an upgrade in the list of available upgrades.
 */
module CombatUpgrades {

  /** `sc2::UPGRADE_ID`. */
  type UpgradeId = int

  /** Reading bit `index` of a bitset, with the range check of `hasUpgrade`. */
  function Test(bits: seq<bool>, index: int): (r: bool)
    ensures r ==> 0 <= index < |bits|
    ensures 0 <= index < |bits| ==> r == bits[index]
  {
    0 <= index < |bits| && bits[index]
  }

  /** Setting bit `index`, with the range check of `add`. */
  function Set(bits: seq<bool>, index: int): (r: seq<bool>)
    ensures |r| == |bits|
    ensures forall k :: 0 <= k < |bits| ==> r[k] == (bits[k] || k == index)
  {
    if 0 <= index < |bits| then bits[index := true] else bits
  }

  lemma {:induction false} SetThenTest(bits: seq<bool>, index: int, other: int)
    ensures 0 <= index < |bits| ==> Test(Set(bits, index), index)
    ensures !(0 <= index < |bits|) ==> Set(bits, index) == bits
    ensures other != index ==> Test(Set(bits, index), other) == Test(bits, other)
    ensures Set(Set(bits, index), index) == Set(bits, index)
  {
    if !(0 <= index < |bits|) {
      assert Set(bits, index) == bits;
    }
    assert Set(Set(bits, index), index) == Set(bits, index);
  }

  class CombatUpgrades {
    /** The bitset `upgrades`; its length is the template capacity. */
    const upgrades: array<bool>
    /** `availableUpgrades.getIndex`: where an upgrade sits in the list of available upgrades. */
    const getIndex: UpgradeId -> int
    /** `availableUpgrades.size()`. */
    const availableCount: nat

    /** The constructor's assertion: the bitset has room for every available upgrade. */
    constructor (capacity: nat, availableCount: nat, getIndex: UpgradeId -> int)
      requires availableCount <= capacity
      ensures fresh(upgrades) && upgrades.Length == capacity
      ensures this.availableCount == availableCount && this.getIndex == getIndex
      ensures upgrades[..] == seq(capacity, _ => false)
    {
      this.getIndex := getIndex;
      this.availableCount := availableCount;
      upgrades := new bool[capacity](_ => false);
    }

    function HasUpgrade(upgrade: UpgradeId): (r: bool)
      reads upgrades
      ensures r == Test(upgrades[..], getIndex(upgrade))
      ensures !(0 <= getIndex(upgrade) < upgrades.Length) ==> !r
    {
      var index := getIndex(upgrade);
      if index < 0 || index >= upgrades.Length then false else upgrades[index]
    }

    method Add(upgrade: UpgradeId)
      modifies upgrades
      ensures upgrades[..] == Set(old(upgrades[..]), getIndex(upgrade))
      ensures 0 <= getIndex(upgrade) < upgrades.Length ==> HasUpgrade(upgrade)
    {
      var index := getIndex(upgrade);
      if index >= 0 && index < upgrades.Length {
        upgrades[index] := true;
      }
    }
  }
}
