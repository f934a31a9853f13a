/** Structural equality of tags. The tag classes do not override Equals, so the equality here is
    the one the repository's tests (Tests/EqualsHashCodeTest.cs) require of them: compounds
    compare by child name, lists element by element in order, every other class by class, name
    and value. */
module Equality {
  import opened Binary
  import opened Results
  import opened Tags
  import opened Compound

  /** Structural equality. Two EmptyTags are equal; a scalar or array tag equals a tag of the same
      class with the same name and value (a BooleanTag is never equal to a ByteTag, floating-point
      values compare by bit pattern); lists are equal when their names, lengths and elements in
      order are; compounds are equal when their names are and their ChildrenMaps have the same keys
      with equal children under each key. A compound whose ChildrenMap throws equals nothing. */
  predicate Equal(a: Tag, b: Tag): (r: bool)
    ensures r ==> GetPrefix(a) == GetPrefix(b) && a.BooleanTag? == b.BooleanTag?
    ensures r && !a.EmptyTag? ==> !b.EmptyTag? && a.name == b.name
    decreases a, 1
  {
    match a
    case ListTag(n, xs) =>
      b.ListTag? && b.name == n && |xs| == |b.tags| && forall k :: 0 <= k < |xs| ==> Equal(xs[k], b.tags[k])
    case CompoundTag(n, cs) =>
      && b.CompoundTag? && b.name == n
      && ChildrenMap(cs).Ok? && ChildrenMap(b.children).Ok?
      && (EntriesInChildren(cs); SameEntries(a, ChildrenMap(cs).value, ChildrenMap(b.children).value))
    case _ => a == b
  }

  /** Every entry of `ea` has an equal entry under the same key in `eb`, and `eb` has no other keys. */
  predicate SameEntries(a: Tag, ea: Entries, eb: Entries)
    requires a.CompoundTag? && forall i :: 0 <= i < |ea| ==> Some(ea[i].1) in a.children
    decreases a, 0
  {
    && (forall i :: 0 <= i < |ea| ==> Find(eb, ea[i].0).Some? && Equal(ea[i].1, Find(eb, ea[i].0).value))
    && (forall j :: 0 <= j < |eb| ==> eb[j].0 in Keys(ea))
  }

  /** The tags Equal relates to themselves: every compound inside has a ChildrenMap. */
  predicate Comparable(t: Tag)
    decreases t, 1
  {
    match t
    case ListTag(_, xs) => forall k :: 0 <= k < |xs| ==> Comparable(xs[k])
    case CompoundTag(_, cs) => ChildrenMap(cs).Ok? && forall k :: 0 <= k < |cs| ==> ComparableChild(cs[k])
    case _ => true
  }

  predicate ComparableChild(o: Option<Tag>)
    decreases o, 0
  {
    o.None? || Comparable(o.value)
  }

  /** In a ChildrenMap every key finds its own entry. */
  lemma FindOwnKeys(cs: seq<Option<Tag>>)
    requires ChildrenMap(cs).Ok?
    ensures var e := ChildrenMap(cs).value;
      forall j :: 0 <= j < |e| ==> Find(e, e[j].0) == Some(e[j].1)
  {
    ChildrenMapSpec(cs);
    var e := ChildrenMap(cs).value;
    forall j | 0 <= j < |e|
      ensures Find(e, e[j].0) == Some(e[j].1)
    {
      FindInEntries(e, Present(cs), e[j].0, e[j].1);
    }
  }

  /** Structural equality is reflexive on every tag whose compounds have a ChildrenMap. */
  lemma {:induction false} EqualReflexive(a: Tag)
    requires Comparable(a)
    ensures Equal(a, a)
    decreases a
  {
    match a
    case ListTag(_, xs) =>
      forall k | 0 <= k < |xs|
        ensures Equal(xs[k], xs[k])
      {
        EqualReflexive(xs[k]);
      }
    case CompoundTag(_, cs) =>
      var e := ChildrenMap(cs).value;
      EntriesInChildren(cs);
      FindOwnKeys(cs);
      forall i | 0 <= i < |e|
        ensures Equal(e[i].1, e[i].1)
      {
        var k :| 0 <= k < |cs| && cs[k] == Some(e[i].1);
        assert ComparableChild(cs[k]);
        EqualReflexive(e[i].1);
      }
      assert forall j :: 0 <= j < |e| ==> e[j].0 in Keys(e) by {
        forall j | 0 <= j < |e|
          ensures e[j].0 in Keys(e)
        {
          assert Keys(e)[j] == e[j].0;
        }
      }
      assert SameEntries(a, e, e);
    case _ =>
  }

  /** A compound whose ChildrenMap throws is equal to nothing, not even to itself. */
  lemma UnmappableCompound(a: Tag, b: Tag)
    requires a.CompoundTag? && ChildrenMap(a.children).Err?
    ensures !Equal(a, b) && !Equal(b, a)
  {
  }

  /** Equal on a compound, unfolded: the same name, both ChildrenMaps, and the same entries. */
  lemma CompoundEqual(a: Tag, b: Tag)
    requires a.CompoundTag?
    ensures Equal(a, b) <==>
      && b.CompoundTag? && b.name == a.name
      && ChildrenMap(a.children).Ok? && ChildrenMap(b.children).Ok?
      && (EntriesInChildren(a.children); SameEntries(a, ChildrenMap(a.children).value, ChildrenMap(b.children).value))
  {
  }

  /** Structural equality is symmetric. */
  lemma {:induction false} EqualSymmetric(a: Tag, b: Tag)
    requires Equal(a, b)
    ensures Equal(b, a)
    decreases a, 1
  {
    match a
    case ListTag(_, xs) =>
      forall k | 0 <= k < |xs|
        ensures Equal(b.tags[k], xs[k])
      {
        EqualSymmetric(xs[k], b.tags[k]);
      }
    case CompoundTag(_, _) =>
      CompoundSymmetric(a, b);
    case _ =>
  }

  /** The compound step of symmetry: each key of `b` finds in `a` the child it was matched with. */
  lemma {:induction false} CompoundSymmetric(a: Tag, b: Tag)
    requires a.CompoundTag? && Equal(a, b)
    ensures Equal(b, a)
    decreases a, 0
  {
    hide Equal, Build, Present;
    CompoundEqual(a, b);
    CompoundEqual(b, a);
    var ea := ChildrenMap(a.children).value;
    var eb := ChildrenMap(b.children).value;
    EntriesInChildren(a.children);
    EntriesInChildren(b.children);
    FindOwnKeys(b.children);
    forall j | 0 <= j < |eb|
      ensures Find(ea, eb[j].0).Some? && Equal(eb[j].1, Find(ea, eb[j].0).value)
    {
      var x := Find(ea, eb[j].0).value;
      var i :| 0 <= i < |ea| && ea[i] == (eb[j].0, x);
      EqualSymmetric(ea[i].1, eb[j].1);
    }
    assert SameEntries(b, eb, ea);
  }

  /** Structural equality is transitive. */
  lemma {:induction false} EqualTransitive(a: Tag, b: Tag, c: Tag)
    requires Equal(a, b) && Equal(b, c)
    ensures Equal(a, c)
    decreases a, 1
  {
    match a
    case ListTag(_, _) => ListTransitive(a, b, c);
    case CompoundTag(_, _) => CompoundTransitive(a, b, c);
    case _ =>
  }

  /** The list case: element by element. */
  lemma {:induction false} ListTransitive(a: Tag, b: Tag, c: Tag)
    requires a.ListTag? && Equal(a, b) && Equal(b, c)
    ensures Equal(a, c)
    decreases a, 0
  {
    forall k | 0 <= k < |a.tags|
      ensures Equal(a.tags[k], c.tags[k])
    {
      EqualTransitive(a.tags[k], b.tags[k], c.tags[k]);
    }
  }

  /** The compound case: key by key through the middle compound's entries. */
  lemma {:induction false} CompoundTransitive(a: Tag, b: Tag, c: Tag)
    requires a.CompoundTag? && Equal(a, b) && Equal(b, c)
    ensures Equal(a, c)
    decreases a, 0
  {
    hide GetPrefix, Find, Keys, ChildrenMap;
    var ea := ChildrenMap(a.children).value;
    var eb := ChildrenMap(b.children).value;
    var ec := ChildrenMap(c.children).value;
    EntriesInChildren(a.children);
    EntriesInChildren(b.children);
    forall i | 0 <= i < |ea|
      ensures Find(ec, ea[i].0).Some? && Equal(ea[i].1, Find(ec, ea[i].0).value)
    {
      var y := Find(eb, ea[i].0).value;
      var j :| 0 <= j < |eb| && eb[j] == (ea[i].0, y);
      EqualTransitive(ea[i].1, y, Find(ec, ea[i].0).value);
    }
    forall l | 0 <= l < |ec|
      ensures ec[l].0 in Keys(ea)
    {
      var j :| 0 <= j < |eb| && Keys(eb)[j] == ec[l].0;
    }
    assert SameEntries(a, ea, ec);
  }

  /** Compound equality ignores the order of the children: two compounds with the same name whose
      non-null children are the same tags in any order are equal. */
  lemma ChildOrderIgnored(n: Name, c1: seq<Option<Tag>>, c2: seq<Option<Tag>>)
    requires Comparable(CompoundTag(n, c1)) && ChildrenMap(c2).Ok?
    requires multiset(Present(c1)) == multiset(Present(c2))
    ensures Equal(CompoundTag(n, c1), CompoundTag(n, c2))
  {
    var a := CompoundTag(n, c1);
    var p1, p2 := Present(c1), Present(c2);
    ChildrenMapSpec(c1);
    ChildrenMapSpec(c2);
    var ea, eb := ChildrenMap(c1).value, ChildrenMap(c2).value;
    EntriesInChildren(c1);
    forall i | 0 <= i < |ea|
      ensures Find(eb, ea[i].0).Some? && Equal(ea[i].1, Find(eb, ea[i].0).value)
    {
      var x := ea[i].1;
      assert x == p1[i] && x in multiset(p1);
      FindInEntries(eb, p2, ea[i].0, x);
      var k :| 0 <= k < |c1| && c1[k] == Some(x);
      assert ComparableChild(c1[k]);
      EqualReflexive(x);
    }
    forall j | 0 <= j < |eb|
      ensures eb[j].0 in Keys(ea)
    {
      assert eb[j].1 == p2[j] && p2[j] in multiset(p1);
      var i :| 0 <= i < |p1| && p1[i] == p2[j];
      FindInEntries(ea, p1, eb[j].0, eb[j].1);
    }
    assert SameEntries(a, ea, eb);
  }

  /** List equality follows the order of the elements. */
  lemma ListOrderMatters(n: Name, x: Tag, y: Tag)
    requires !Equal(x, y)
    ensures !Equal(ListTag(n, [x, y]), ListTag(n, [y, x]))
  {
    assert ListTag(n, [x, y]).tags[0] == x && ListTag(n, [y, x]).tags[0] == y;
  }

  /** Tags without a compound anywhere inside. */
  predicate NoCompound(t: Tag)
    decreases t
  {
    match t
    case ListTag(_, xs) => forall k :: 0 <= k < |xs| ==> NoCompound(xs[k])
    case CompoundTag(_, _) => false
    case _ => true
  }

  /** Without compounds, structural equality is equality of the values: the same class, name
      and payload, and for lists the same elements in the same order. */
  lemma {:induction false} EqualWithoutCompounds(a: Tag, b: Tag)
    requires NoCompound(a)
    ensures Equal(a, b) <==> a == b
    decreases a
  {
    match a
    case ListTag(_, xs) =>
      forall k | 0 <= k < |xs|
        ensures Equal(xs[k], xs[k])
      {
        EqualWithoutCompounds(xs[k], xs[k]);
      }
      if Equal(a, b) {
        forall k | 0 <= k < |xs|
          ensures xs[k] == b.tags[k]
        {
          EqualWithoutCompounds(xs[k], b.tags[k]);
        }
        assert xs == b.tags;
      }
    case _ =>
  }

  /** A BooleanTag is never equal to a ByteTag, whatever their names and bytes. */
  lemma BooleanIsNotByte(m: Name, v: i8, n: Name, flag: bool)
    ensures !Equal(ByteTag(m, v), BooleanTag(n, flag)) && !Equal(BooleanTag(n, flag), ByteTag(m, v))
  {
  }

  /** Equal compounds answer every indexer lookup alike: a key finds a child in one exactly when it
      finds one in the other, and the two children are equal. */
  lemma EqualLookups(a: Tag, b: Tag, key: Text)
    requires a.CompoundTag? && Equal(a, b)
    ensures Lookup(a.children, key).Ok? && Lookup(b.children, key).Ok?
    ensures Lookup(a.children, key).value.Some? <==> Lookup(b.children, key).value.Some?
    ensures Lookup(a.children, key).value.Some? ==>
      Equal(Lookup(a.children, key).value.value, Lookup(b.children, key).value.value)
  {
    hide ChildrenMap, Build, Present;
    var ea := ChildrenMap(a.children).value;
    var eb := ChildrenMap(b.children).value;
    EntriesInChildren(a.children);
    if Find(ea, key).Some? {
      var i :| 0 <= i < |ea| && ea[i] == (key, Find(ea, key).value);
    }
    if Find(eb, key).Some? {
      var j :| 0 <= j < |eb| && eb[j] == (key, Find(eb, key).value);
      assert eb[j].0 in Keys(ea);
    }
  }
}
