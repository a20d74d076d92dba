/** The held-key tracker: a set kept as a strictly ascending sequence, so the
    drain order is deterministic. */
module StuckKeys {
  import opened Words
  import opened Wire
  import opened Platform

  predicate StrictlyAscending(s: seq<uint16>) {
    forall i, j :: 0 <= i < j < |s| ==> s[i] < s[j]
  }

  ghost function Elements(s: seq<uint16>): set<uint16> {
    set k | k in s
  }

  lemma TailMembers(s: seq<uint16>)
    requires s != [] && StrictlyAscending(s)
    ensures forall x :: x in s[1..] <==> x in s && x != s[0]
    ensures forall x :: x in s[1..] ==> s[0] < x
  {
    assert s == [s[0]] + s[1..];
  }

  lemma PrependAscending(k: uint16, s: seq<uint16>)
    requires StrictlyAscending(s)
    requires forall x :: x in s ==> k < x
    ensures StrictlyAscending([k] + s)
  {
    assert forall i :: 0 <= i < |s| ==> s[i] in s;
  }

  function InsertSorted(s: seq<uint16>, k: uint16): (r: seq<uint16>)
    requires StrictlyAscending(s)
    ensures StrictlyAscending(r)
    ensures forall x :: x in r <==> x in s || x == k
  {
    if s == [] || k < s[0] then [k] + s
    else if k == s[0] then s
    else
      var rest := InsertSorted(s[1..], k);
      TailMembers(s);
      PrependAscending(s[0], rest);
      [s[0]] + rest
  }

  function RemoveSorted(s: seq<uint16>, k: uint16): (r: seq<uint16>)
    requires StrictlyAscending(s)
    ensures StrictlyAscending(r)
    ensures forall x :: x in r <==> x in s && x != k
  {
    if s == [] then []
    else
      TailMembers(s);
      if k == s[0] then s[1..]
      else
        var rest := RemoveSorted(s[1..], k);
        PrependAscending(s[0], rest);
        [s[0]] + rest
  }

  lemma InsertElements(s: seq<uint16>, k: uint16)
    requires StrictlyAscending(s)
    ensures Elements(InsertSorted(s, k)) == Elements(s) + {k}
  {
    var r := InsertSorted(s, k);
    forall x ensures x in Elements(r) <==> x in Elements(s) + {k} {
      assert x in Elements(r) <==> x in r;
    }
  }

  /** The one strictly ascending enumeration of a set. */
  ghost function Ascending(keys: set<uint16>): (r: seq<uint16>)
    ensures StrictlyAscending(r)
    ensures Elements(r) == keys
    decreases |keys|
  {
    if keys == {} then []
    else
      var k :| k in keys;
      var rest := Ascending(keys - {k});
      InsertElements(rest, k);
      assert keys - {k} + {k} == keys;
      InsertSorted(rest, k)
  }

  lemma {:induction false} AscendingUnique(a: seq<uint16>, b: seq<uint16>)
    requires StrictlyAscending(a) && StrictlyAscending(b)
    requires Elements(a) == Elements(b)
    ensures a == b
    decreases |a|
  {
    assert a != [] ==> a[0] in Elements(a);
    assert b != [] ==> b[0] in Elements(b);
    if a != [] {
      assert a[0] in b && b[0] in a;
      assert a[0] == b[0];
      TailMembers(a);
      TailMembers(b);
      assert forall x :: x in a <==> x in Elements(a);
      assert forall x :: x in b <==> x in Elements(b);
      assert Elements(a[1..]) == Elements(b[1..]);
      AscendingUnique(a[1..], b[1..]);
    }
  }

  class HeldKeys {
    var keys: seq<uint16>

    ghost predicate Valid()
      reads this
    {
      StrictlyAscending(keys)
    }

    ghost function Contents(): set<uint16>
      reads this
    {
      Elements(keys)
    }

    constructor ()
      ensures Valid() && Contents() == {}
    {
      keys := [];
    }

    method Insert(hid: uint16)
      requires Valid()
      modifies this
      ensures Valid() && Contents() == old(Contents()) + {hid}
    {
      keys := InsertSorted(keys, hid);
    }

    method Remove(hid: uint16)
      requires Valid()
      modifies this
      ensures Valid() && Contents() == old(Contents()) - {hid}
    {
      keys := RemoveSorted(keys, hid);
    }

    method Observe(hid: uint16, state: KeyState)
      requires Valid()
      modifies this
      ensures Valid()
      ensures Contents() == if state.Down? then old(Contents()) + {hid} else old(Contents()) - {hid}
    {
      match state
      case Down => Insert(hid);
      case Up => Remove(hid);
    }

    method IsEmpty() returns (r: bool)
      requires Valid()
      ensures r <==> Contents() == {}
    {
      r := keys == [];
      assert !r ==> keys[0] in Contents();
    }

    /** Hands out every held key in ascending order and leaves none. */
    method Drain() returns (taken: seq<uint16>)
      requires Valid()
      modifies this
      ensures Valid() && Contents() == {}
      ensures taken == Ascending(old(Contents()))
    {
      taken := keys;
      keys := [];
      AscendingUnique(taken, Ascending(old(Contents())));
    }
  }
}
