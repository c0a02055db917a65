// The access list as the source keeps it (src/core/exec.rs): a map from each
// address to the index of its slot set, or -1 while it has none.
module AccessTable {
  import opened Common
  import opened Machine
  import Interpreter

  // Every index points to a slot set, and no two addresses share one.
  ghost predicate Indexed(addrs: map<Addr, int>, slots: seq<set<U256>>) {
    && (forall a <- addrs :: -1 <= addrs[a] < |slots|)
    && (forall a <- addrs, b <- addrs :: a != b && addrs[a] == addrs[b] ==> addrs[a] == -1)
  }

  // The slot set of one address.
  ghost function SlotsAt(addrs: map<Addr, int>, slots: seq<set<U256>>, a: Addr): set<U256>
    requires Indexed(addrs, slots)
  {
    if a in addrs && addrs[a] != -1 then slots[addrs[a]] else {}
  }

  ghost function AllSlots(addrs: map<Addr, int>, slots: seq<set<U256>>): set<(Addr, U256)>
    requires Indexed(addrs, slots)
  {
    set a, key | a in addrs && key in SlotsAt(addrs, slots, a) :: (a, key)
  }

  // Tables that differ in one address's slot set, which gained a key.
  lemma OneSlotMore(
    addrs: map<Addr, int>, slots: seq<set<U256>>, addrs': map<Addr, int>, slots': seq<set<U256>>,
    a: Addr, key: U256
  )
    requires Indexed(addrs, slots) && Indexed(addrs', slots')
    requires a in addrs' && addrs'.Keys == addrs.Keys + {a}
    requires SlotsAt(addrs', slots', a) == SlotsAt(addrs, slots, a) + {key}
    requires forall b: Addr :: b != a ==> SlotsAt(addrs', slots', b) == SlotsAt(addrs, slots, b)
    ensures AllSlots(addrs', slots') == AllSlots(addrs, slots) + {(a, key)}
  {
    var before, after := AllSlots(addrs, slots), AllSlots(addrs', slots');
    forall p | p in after
      ensures p in before + {(a, key)}
    {
      assert p.1 in SlotsAt(addrs', slots', p.0);
    }
    forall p | p in before + {(a, key)}
      ensures p in after
    {
      assert p.1 in SlotsAt(addrs', slots', p.0);
    }
  }

  // A key into the slot set an address has.
  lemma KeyAdded(addrs: map<Addr, int>, slots: seq<set<U256>>, a: Addr, key: U256)
    requires Indexed(addrs, slots) && a in addrs && addrs[a] != -1
    ensures var slots' := slots[addrs[a] := slots[addrs[a]] + {key}];
      Indexed(addrs, slots') && AllSlots(addrs, slots') == AllSlots(addrs, slots) + {(a, key)}
    ensures (a, key) in AllSlots(addrs, slots) <==> key in slots[addrs[a]]
    ensures addrs.Keys == addrs.Keys + {a}
  {
    hide AllSlots;
    var slots' := slots[addrs[a] := slots[addrs[a]] + {key}];
    InSlots(addrs, slots, a, key);
    OneSlotMore(addrs, slots, addrs, slots', a, key);
  }

  // A first slot set for an address.
  lemma SetAdded(addrs: map<Addr, int>, slots: seq<set<U256>>, a: Addr, key: U256)
    requires Indexed(addrs, slots) && (a !in addrs || addrs[a] == -1)
    ensures var addrs', slots' := addrs[a := |slots|], slots + [{key}];
      Indexed(addrs', slots') && AllSlots(addrs', slots') == AllSlots(addrs, slots) + {(a, key)}
      && addrs'.Keys == addrs.Keys + {a}
    ensures (a, key) !in AllSlots(addrs, slots)
  {
    hide AllSlots;
    InSlots(addrs, slots, a, key);
    OneSlotMore(addrs, slots, addrs[a := |slots|], slots + [{key}], a, key);
  }

  lemma InSlots(addrs: map<Addr, int>, slots: seq<set<U256>>, a: Addr, key: U256)
    requires Indexed(addrs, slots)
    ensures (a, key) in AllSlots(addrs, slots) <==> key in SlotsAt(addrs, slots, a)
  {
  }

  lemma SameSlots(addrs: map<Addr, int>, slots: seq<set<U256>>, a: Addr)
    requires Indexed(addrs, slots) && a !in addrs
    ensures Indexed(addrs[a := -1], slots)
    ensures AllSlots(addrs[a := -1], slots) == AllSlots(addrs, slots)
  {
    var addrs' := addrs[a := -1];
    assert forall b: Addr :: SlotsAt(addrs', slots, b) == SlotsAt(addrs, slots, b);
  }

  class AccessTable {
    var addrs: map<Addr, int>
    var slots: seq<set<U256>>

    ghost predicate Valid() reads this { Indexed(addrs, slots) }

    ghost function Model(): AccessList
      requires Valid()
      reads this
    {
      AccessList(addrs.Keys, AllSlots(addrs, slots))
    }

    constructor Empty()
      ensures Valid() && Model() == AccessList({}, {})
    {
      addrs, slots := map[], [];
    }

    function ContainsAddr(a: Addr): bool
      reads this
    {
      a in addrs
    }

    // Whether the address is listed, and whether the slot is.
    function Contains(a: Addr, key: U256): (r: (bool, bool))
      requires Valid()
      reads this
      ensures r == (a in Model().addrs, (a, key) in Model().slots)
    {
      assert (a, key) in AllSlots(addrs, slots) <==> a in addrs && key in SlotsAt(addrs, slots, a);
      if a !in addrs then (false, false)
      else (true, addrs[a] != -1 && key in slots[addrs[a]])
    }

    method AddAddr(a: Addr) returns (changed: bool)
      requires Valid()
      modifies this
      ensures Valid() && Model() == old(Model()).AddAddr(a)
      ensures changed <==> a !in old(Model()).addrs
    {
      changed := a !in addrs;
      if changed {
        SameSlots(addrs, slots, a);
        addrs := addrs[a := -1];
      }
      assert addrs.Keys == old(addrs.Keys) + {a};
    }

    // Adds the slot, and the address with it; says which of the two is new.
    method AddSlot(a: Addr, key: U256) returns (addrChanged: bool, slotChanged: bool)
      requires Valid()
      modifies this
      ensures Valid() && Model() == old(Model()).AddSlot(a, key)
      ensures addrChanged <==> a !in old(Model()).addrs
      ensures slotChanged <==> (a, key) !in old(Model()).slots
    {
      hide AllSlots;
      if a in addrs && addrs[a] != -1 {
        var i := addrs[a];
        KeyAdded(addrs, slots, a, key);
        addrChanged, slotChanged := false, key !in slots[i];
        slots := slots[i := slots[i] + {key}];
      } else {
        SetAdded(addrs, slots, a, key);
        addrChanged, slotChanged := a !in addrs, true;
        addrs := addrs[a := |slots|];
        slots := slots + [{key}];
      }
    }

    // The list a transaction starts with.
    method AddInitial(e: Env, from: Addr, to: Option<Addr>, listed: seq<(Addr, seq<U256>)>)
      requires Valid() && Model() == AccessList({}, {})
      modifies this
      ensures Valid() && Model() == Interpreter.InitialAccess(e, from, to, listed)
    {
      hide AllSlots, Indexed;
      var _ := AddAddr(from);
      if to.Some? {
        var _ := AddAddr(to.value);
      }
      AddAddrs(e.precompiled.Keys);
      assert Model().addrs == {from} + (if to.Some? then {to.value} else {}) + e.precompiled.Keys;
      assert listed[0..] == listed;
      for i := 0 to |listed|
        invariant Valid()
        invariant Interpreter.AddListed(Model(), listed[i..]) == Interpreter.InitialAccess(e, from, to, listed)
      {
        AddTuple(listed[i]);
        assert listed[i..][1..] == listed[i + 1..];
      }
    }

    method AddAddrs(all: set<Addr>)
      requires Valid()
      modifies this
      ensures Valid() && Model() == AccessList(old(Model()).addrs + all, old(Model()).slots)
    {
      hide AllSlots, Indexed;
      var rest := all;
      while rest != {}
        invariant Valid() && rest <= all
        invariant Model() == AccessList(old(Model()).addrs + (all - rest), old(Model()).slots)
        decreases |rest|
      {
        var a :| a in rest;
        var _ := AddAddr(a);
        rest := rest - {a};
      }
    }

    // One address of a transaction's access list with its storage keys.
    method AddTuple(t: (Addr, seq<U256>))
      requires Valid()
      modifies this
      ensures Valid()
      ensures Model() == AccessList(old(Model()).addrs + {t.0}, old(Model()).slots + Interpreter.Pairs(t.0, t.1))
    {
      hide AllSlots, Indexed;
      var _ := AddAddr(t.0);
      for j := 0 to |t.1|
        invariant Valid()
        invariant Model() == AccessList(
          old(Model()).addrs + {t.0}, old(Model()).slots + Interpreter.Pairs(t.0, t.1[..j]))
      {
        var _, _ := AddSlot(t.0, t.1[j]);
        assert t.1[..j + 1] == t.1[..j] + [t.1[j]];
      }
      assert t.1[..|t.1|] == t.1;
    }
  }
}
