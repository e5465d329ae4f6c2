/** Validators and lists of validators (types/validator.go). */
module Validators {
  import opened Common
  import Int64
  import Sorting

  datatype Validator = Validator(address: Bytes, pubKey: Bytes, power: int, priority: int)

  const MAX_TOTAL_VOTING_POWER: int := Int64.MAX / 8
  const PRIORITY_WINDOW_SIZE_FACTOR: int := 2

  function Power(v: Validator): int {
    v.power
  }

  function Powers(vals: seq<Validator>): (ps: seq<int>) {
    seq(|vals|, i requires 0 <= i < |vals| => vals[i].power)
  }

  function Priorities(vals: seq<Validator>): (ps: seq<int>) {
    seq(|vals|, i requires 0 <= i < |vals| => vals[i].priority)
  }

  function TotalPower(vals: seq<Validator>): int {
    Sum(Powers(vals))
  }

  function Addresses(vals: seq<Validator>): set<Bytes> {
    set v | v in vals :: v.address
  }

  predicate UniqueAddresses(vals: seq<Validator>) {
    forall i, j :: 0 <= i < j < |vals| ==> vals[i].address != vals[j].address
  }

  /** What a validator is apart from its place in the rotation. */
  datatype Identity = Identity(address: Bytes, pubKey: Bytes, power: int)

  function Id(v: Validator): Identity {
    Identity(v.address, v.pubKey, v.power)
  }

  ghost function Ids(vals: seq<Validator>): set<Identity> {
    set v | v in vals :: Id(v)
  }

  function Find(vals: seq<Validator>, address: Bytes): (r: int)
    ensures -1 <= r < |vals|
    ensures r >= 0 ==> vals[r].address == address
    ensures r >= 0 <==> address in Addresses(vals)
  {
    if vals == [] then -1
    else
      var r := Find(vals[..|vals| - 1], address);
      assert vals == vals[..|vals| - 1] + [vals[|vals| - 1]];
      assert forall v :: v in vals <==> v in vals[..|vals| - 1] || v == vals[|vals| - 1];
      if r >= 0 then r
      else if vals[|vals| - 1].address == address then |vals| - 1
      else -1
  }

  lemma {:induction false} FindIs(vals: seq<Validator>, address: Bytes, i: int)
    requires 0 <= i < |vals| && vals[i].address == address
    requires forall j :: 0 <= j < i ==> vals[j].address != address
    ensures Find(vals, address) == i
  {
    if i < |vals| - 1 {
      FindIs(vals[..|vals| - 1], address, i);
    }
  }

  lemma FindNone(vals: seq<Validator>, address: Bytes)
    requires forall j :: 0 <= j < |vals| ==> vals[j].address != address
    ensures Find(vals, address) == -1
  {
  }

  /** The position of the first validator with this address, or -1. */
  method GetByAddress(vals: seq<Validator>, address: Bytes) returns (index: int, val: Option<Validator>)
    ensures index == Find(vals, address)
    ensures index >= 0 ==> val == Some(vals[index])
    ensures index < 0 ==> val == None
  {
    for i := 0 to |vals|
      invariant forall j :: 0 <= j < i ==> vals[j].address != address
    {
      if vals[i].address == address {
        FindIs(vals, address, i);
        return i, Some(vals[i]);
      }
    }
    FindNone(vals, address);
    return -1, None;
  }

  /** The power held under an address: 0 when nobody has it. */
  function PowerAt(vals: seq<Validator>, address: Bytes): int {
    var i := Find(vals, address);
    if i >= 0 then vals[i].power else 0
  }

  // ----- sums of powers

  lemma TotalPowerBy(vals: seq<Validator>)
    ensures TotalPower(vals) == Sorting.SumBy(Power, vals)
  {
    Sorting.SumByIsSum(Power, vals, Powers(vals));
  }

  lemma TotalPowerAppend(s: seq<Validator>, t: seq<Validator>)
    ensures TotalPower(s + t) == TotalPower(s) + TotalPower(t)
  {
    assert Powers(s + t) == Powers(s) + Powers(t);
    SumAppend(Powers(s), Powers(t));
  }

  lemma TotalPowerCons(vals: seq<Validator>)
    requires vals != []
    ensures TotalPower(vals) == vals[0].power + TotalPower(vals[1..])
  {
    assert vals == vals[..1] + vals[1..];
    TotalPowerAppend(vals[..1], vals[1..]);
    assert Powers(vals[..1]) == [vals[0].power];
    SumSingle(vals[0].power);
  }

  lemma TotalPowerSnoc(vals: seq<Validator>)
    requires vals != []
    ensures TotalPower(vals) == TotalPower(vals[..|vals| - 1]) + vals[|vals| - 1].power
  {
    assert Powers(vals)[..|vals| - 1] == Powers(vals[..|vals| - 1]);
  }

  lemma TotalPowerRearranged(s: seq<Validator>, t: seq<Validator>)
    requires multiset(s) == multiset(t)
    ensures TotalPower(s) == TotalPower(t)
  {
    TotalPowerBy(s);
    TotalPowerBy(t);
    Sorting.SumByRearranged(Power, s, t);
  }
}
