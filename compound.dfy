/** CompoundTag's name-indexed view of its children (NBT/Tags/CompoundTag.cs): the
    dictionary built from the child array, lookups through it, WithChild, and the
    cached-dictionary object state behind the ChildrenMap property. */
module Compound {
  import opened Binary
  import opened Results
  import opened Tags

  /** A `Dictionary<string, INbtTag>` in insertion order. */
  type Entries = seq<(Text, Tag)>

  function Keys(e: Entries): (ks: seq<Text>)
    ensures |ks| == |e|
    ensures forall i :: 0 <= i < |e| ==> ks[i] == e[i].0
  {
    seq(|e|, i requires 0 <= i < |e| => e[i].0)
  }

  /** One step of the ChildrenMap loop for a non-null child: `Add(child.GetName()!, child)`.
      EmptyTag's GetName throws, a null key and a key already present make Add throw. */
  function AddChild(e: Entries, child: Tag): (r: Result<Entries>)
    ensures r.Ok? <==> !child.EmptyTag? && child.name.Some? && child.name.value !in Keys(e)
    ensures r.Ok? ==> r.value == e + [(child.name.value, child)]
  {
    if child.EmptyTag? then Err(NotSupported)
    else if child.name.None? then Err(NullKey)
    else if child.name.value in Keys(e) then Err(DuplicateName(child.name.value))
    else Ok(e + [(child.name.value, child)])
  }

  /** What the ChildrenMap loop has put into the dictionary, and the exception it stopped with. */
  datatype Fill = Fill(entries: Entries, failure: Option<Error>)

  /** The ChildrenMap loop over the children, first to last, stopping at the first exception. */
  function Build(children: seq<Option<Tag>>): (f: Fill)
    decreases |children|
  {
    if children == [] then Fill([], None)
    else
      var before := Build(children[..|children| - 1]);
      var last := children[|children| - 1];
      if before.failure.Some? || last.None? then before
      else
        match AddChild(before.entries, last.value)
        case Ok(e) => Fill(e, None)
        case Err(x) => Fill(before.entries, Some(x))
  }

  /** The dictionary a fresh ChildrenMap access returns, or the exception it throws. */
  function ChildrenMap(children: seq<Option<Tag>>): (r: Result<Entries>)
    ensures r.Ok? <==> Build(children).failure.None?
  {
    var f := Build(children);
    if f.failure.Some? then Err(f.failure.value) else Ok(f.entries)
  }

  /** The non-null children, in order. */
  function Present(children: seq<Option<Tag>>): (ps: seq<Tag>)
    decreases |children|
  {
    if children == [] then []
    else
      var last := children[|children| - 1];
      Present(children[..|children| - 1]) + (if last.Some? then [last.value] else [])
  }

  /** Every tag is non-empty and named, and no name occurs twice. */
  predicate UniquelyNamed(ps: seq<Tag>) {
    && (forall i :: 0 <= i < |ps| ==> !ps[i].EmptyTag? && ps[i].name.Some?)
    && (forall i, j :: 0 <= i < j < |ps| ==> ps[i].name != ps[j].name)
  }

  /** The entries hold exactly the given tags, in order, each under its own name. */
  predicate EntriesOf(e: Entries, ps: seq<Tag>) {
    |e| == |ps| && forall i :: 0 <= i < |e| ==> e[i].1 == ps[i] && !ps[i].EmptyTag? && ps[i].name == Some(e[i].0)
  }

  /** Appending a tag keeps the sequence uniquely named exactly when the tag is non-empty,
      named, and its name is new. */
  lemma UniquelyNamedSnoc(ps: seq<Tag>, x: Tag)
    ensures UniquelyNamed(ps + [x]) <==>
      && UniquelyNamed(ps) && !x.EmptyTag? && x.name.Some?
      && forall i :: 0 <= i < |ps| ==> ps[i].name != x.name
  {
    var qs := ps + [x];
    assert forall i :: 0 <= i < |ps| ==> qs[i] == ps[i];
    assert qs[|ps|] == x;
    if UniquelyNamed(qs) {
      forall i | 0 <= i < |ps|
        ensures ps[i].name != x.name
      {
        assert qs[i].name != qs[|ps|].name;
      }
    }
  }

  lemma PresentOfAppend(children: seq<Option<Tag>>, c: Option<Tag>)
    ensures Present(children + [c]) == Present(children) + (if c.Some? then [c.value] else [])
  {
    assert (children + [c])[..|children|] == children;
  }

  lemma {:induction false} PresentLength(children: seq<Option<Tag>>)
    ensures |Present(children)| <= |children|
    decreases |children|
  {
    if children != [] {
      PresentLength(children[..|children| - 1]);
    }
  }

  /** ChildrenMap succeeds exactly when the non-null children are uniquely named non-empty
      tags, and then maps each name to its child, in the children's order. */
  lemma {:induction false} ChildrenMapSpec(children: seq<Option<Tag>>)
    ensures ChildrenMap(children).Ok? <==> UniquelyNamed(Present(children))
    ensures ChildrenMap(children).Ok? ==> EntriesOf(ChildrenMap(children).value, Present(children))
    decreases |children|
  {
    if children != [] {
      var init := children[..|children| - 1];
      var last := children[|children| - 1];
      ChildrenMapSpec(init);
      assert children == init + [last];
      PresentOfAppend(init, last);
      var before := Build(init);
      if before.failure.Some? {
        UniquelyNamedExtend(Present(init), Present(children));
      } else if last.Some? {
        AddChildSpec(before.entries, Present(init), last.value);
      }
    }
  }

  /** Every non-null child is one of the children. */
  lemma {:induction false} PresentInChildren(children: seq<Option<Tag>>)
    ensures forall k :: 0 <= k < |Present(children)| ==> Some(Present(children)[k]) in children
    decreases |children|
  {
    if children != [] {
      var init := children[..|children| - 1];
      PresentInChildren(init);
      assert forall o :: o in init ==> o in children;
    }
  }

  /** Each dictionary entry is a non-null, non-empty child stored under its own name. */
  lemma EntriesInChildren(children: seq<Option<Tag>>)
    requires ChildrenMap(children).Ok?
    ensures var e := ChildrenMap(children).value;
      forall i :: 0 <= i < |e| ==> Some(e[i].1) in children && !e[i].1.EmptyTag? && e[i].1.name == Some(e[i].0)
  {
    ChildrenMapSpec(children);
    PresentInChildren(children);
  }

  /** A name clash or an unnamed tag in a prefix stays in every extension. */
  lemma UniquelyNamedExtend(ps: seq<Tag>, qs: seq<Tag>)
    requires |ps| <= |qs| && qs[..|ps|] == ps
    ensures UniquelyNamed(qs) ==> UniquelyNamed(ps)
  {
    assert forall i :: 0 <= i < |ps| ==> ps[i] == qs[i];
  }

  /** One dictionary Add: it succeeds exactly when the appended tag keeps the tags uniquely
      named, and then the entries hold the tags with it appended. */
  lemma AddChildSpec(e: Entries, ps: seq<Tag>, x: Tag)
    requires EntriesOf(e, ps) && UniquelyNamed(ps)
    ensures AddChild(e, x).Ok? <==> UniquelyNamed(ps + [x])
    ensures AddChild(e, x).Ok? ==> EntriesOf(AddChild(e, x).value, ps + [x])
  {
    UniquelyNamedSnoc(ps, x);
    if !x.EmptyTag? && x.name.Some? {
      if x.name.value in Keys(e) {
        var i :| 0 <= i < |e| && Keys(e)[i] == x.name.value;
        assert ps[i].name == x.name;
      } else {
        forall i | 0 <= i < |ps|
          ensures ps[i].name != x.name
        {
          assert Keys(e)[i] == e[i].0;
        }
      }
    }
  }

  /** Once the loop has thrown on some prefix of the children, the rest changes nothing. */
  lemma {:induction false} BuildStopsAtFailure(children: seq<Option<Tag>>, j: nat)
    requires j <= |children| && Build(children[..j]).failure.Some?
    ensures Build(children) == Build(children[..j])
    decreases |children|
  {
    if j < |children| {
      var init := children[..|children| - 1];
      assert init[..j] == children[..j];
      BuildStopsAtFailure(init, j);
    } else {
      assert children[..j] == children;
    }
  }

  /** Dictionary.GetValueOrDefault over the entries: the tag stored under the key, or null. */
  function Find(e: Entries, key: Text): (r: Option<Tag>)
    ensures r.Some? <==> key in Keys(e)
    ensures r.Some? ==> exists i :: 0 <= i < |e| && e[i] == (key, r.value)
  {
    if e == [] then None
    else if e[0].0 == key then Some(e[0].1)
    else
      var r := Find(e[1..], key);
      assert r.Some? ==> exists i :: 0 <= i < |e| && e[i] == (key, r.value) by {
        if r.Some? {
          var i :| 0 <= i < |e[1..]| && e[1..][i] == (key, r.value);
          assert e[i + 1] == (key, r.value);
        }
      }
      assert Keys(e) == [e[0].0] + Keys(e[1..]);
      r
  }

  /** The indexer `this[name]`: the child with that name, or null; the dictionary may throw. */
  function Lookup(children: seq<Option<Tag>>, key: Text): (r: Result<Option<Tag>>)
    ensures r.Err? <==> ChildrenMap(children).Err?
  {
    var e :- ChildrenMap(children);
    Ok(Find(e, key))
  }

  /** Contains(name): whether a child has that name; the dictionary may throw. */
  function Contains(children: seq<Option<Tag>>, key: Text): (r: Result<bool>)
    ensures r.Err? <==> ChildrenMap(children).Err?
    ensures r.Ok? ==> r.value == Lookup(children, key).value.Some?
  {
    var e :- ChildrenMap(children);
    Ok(key in Keys(e))
  }

  /** In entries built from uniquely named tags, a key finds exactly the tag of that name. */
  lemma FindInEntries(e: Entries, ps: seq<Tag>, key: Text, t: Tag)
    requires EntriesOf(e, ps) && UniquelyNamed(ps)
    ensures Find(e, key) == Some(t) <==> t in ps && t.name == Some(key)
    ensures key in Keys(e) <==> exists i :: 0 <= i < |ps| && ps[i].name == Some(key)
  {
    if t in ps && t.name == Some(key) {
      var i :| 0 <= i < |ps| && ps[i] == t;
      assert Keys(e)[i] == key;
      var j :| 0 <= j < |e| && e[j] == (key, Find(e, key).value);
      assert ps[i].name == ps[j].name;
    }
    if Find(e, key) == Some(t) {
      var j :| 0 <= j < |e| && e[j] == (key, t);
      assert ps[j] == t;
    }
    if exists i :: 0 <= i < |ps| && ps[i].name == Some(key) {
      var i :| 0 <= i < |ps| && ps[i].name == Some(key);
      assert Keys(e)[i] == key;
    }
  }

  /** On uniquely named children the indexer returns the child carrying the key, and
      Contains says whether there is one. */
  lemma LookupFindsNamedChild(children: seq<Option<Tag>>, key: Text, t: Tag)
    requires UniquelyNamed(Present(children))
    ensures Lookup(children, key) == Ok(Some(t)) <==> t in Present(children) && t.name == Some(key)
    ensures Contains(children, key) == Ok(exists i :: 0 <= i < |Present(children)| && Present(children)[i].name == Some(key))
  {
    ChildrenMapSpec(children);
    FindInEntries(ChildrenMap(children).value, Present(children), key, t);
  }

  /** CompoundTag.WithChild: the same compound with the child appended; a null child throws
      ArgumentNullException, an unnamed one ArgumentException, an EmptyTag NotSupportedException. */
  function WithChild(c: Tag, child: Option<Tag>): (r: Result<Tag>)
    requires c.CompoundTag?
    ensures r.Err? <==> child.None? || child.value.EmptyTag? || child.value.name.None?
    ensures child.None? ==> r == Err(NullChild)
    ensures child.Some? && child.value.EmptyTag? ==> r == Err(NotSupported)
    ensures child.Some? && !child.value.EmptyTag? && child.value.name.None? ==> r == Err(UnnamedChild)
    ensures r.Ok? ==> r.value.CompoundTag? && r.value.name == c.name
    ensures r.Ok? ==> r.value.children == c.children + [child]
    ensures r.Ok? ==> Present(r.value.children) == Present(c.children) + [child.value]
  {
    if child.None? then Err(NullChild)
    else
      var n :- GetName(child.value);
      if n.None? then Err(UnnamedChild)
      else
        PresentOfAppend(c.children, child);
        Ok(CompoundTag(c.name, c.children + [child]))
  }

  /** A child added under a fresh name is what the indexer then finds under that name;
      adding one under a name already present makes every ChildrenMap access throw. */
  lemma WithChildThenLookup(c: Tag, x: Tag)
    requires c.CompoundTag?
    requires UniquelyNamed(Present(c.children)) && WithChild(c, Some(x)).Ok?
    ensures (exists i :: 0 <= i < |Present(c.children)| && Present(c.children)[i].name == x.name)
      <==> ChildrenMap(WithChild(c, Some(x)).value.children).Err?
    ensures ChildrenMap(WithChild(c, Some(x)).value.children).Ok? ==>
      Lookup(WithChild(c, Some(x)).value.children, x.name.value) == Ok(Some(x))
  {
    var ps := Present(c.children);
    var children := WithChild(c, Some(x)).value.children;
    assert Present(children) == ps + [x];
    ChildrenMapSpec(children);
    assert !x.EmptyTag? && x.name.Some?;
    UniquelyNamedSnoc(ps, x);
    assert ChildrenMap(children).Err? <==> !UniquelyNamed(ps + [x]);
    if UniquelyNamed(ps + [x]) {
      LookupFindsNamedChild(children, x.name.value, x);
      assert (ps + [x])[|ps|] == x;
    } else {
      var i :| 0 <= i < |ps| && ps[i].name == x.name;
      assert exists i :: 0 <= i < |Present(c.children)| && Present(c.children)[i].name == x.name;
      assert ChildrenMap(WithChild(c, Some(x)).value.children).Err?;
    }
  }

  /** One ChildrenMap access as written: with nothing cached it stores the new dictionary in the
      cache before filling it, so a throwing access leaves the entries added so far cached, and
      every later access returns that partial dictionary. Result: (value returned, new cache). */
  function AccessAsWritten(children: seq<Option<Tag>>, cache: Option<Entries>): (r: (Result<Entries>, Option<Entries>))
    ensures cache.Some? ==> r == (Ok(cache.value), cache)
    ensures cache.None? ==> r.0 == ChildrenMap(children) && r.1 == Some(Build(children).entries)
  {
    if cache.Some? then (Ok(cache.value), cache)
    else
      var f := Build(children);
      (if f.failure.Some? then Err(f.failure.value) else Ok(f.entries), Some(f.entries))
  }

  /** One ChildrenMap access as intended: only a complete dictionary is cached. */
  function Access(children: seq<Option<Tag>>, cache: Option<Entries>): (r: (Result<Entries>, Option<Entries>))
    ensures cache.Some? ==> r == (Ok(cache.value), cache)
    ensures cache.None? ==> r.0 == ChildrenMap(children) && (r.1.Some? <==> r.0.Ok?)
    ensures r.1.Some? ==> r.0 == Ok(r.1.value)
  {
    if cache.Some? then (Ok(cache.value), cache)
    else
      var m := ChildrenMap(children);
      (m, if m.Ok? then Some(m.value) else None)
  }

  /** A cache is sound when it is empty or holds the complete dictionary. */
  predicate SoundCache(children: seq<Option<Tag>>, cache: Option<Entries>) {
    cache.None? || ChildrenMap(children) == Ok(cache.value)
  }

  /** The intended access always returns the dictionary of the children and keeps the cache sound. */
  lemma AccessIsChildrenMap(children: seq<Option<Tag>>, cache: Option<Entries>)
    requires SoundCache(children, cache)
    ensures Access(children, cache).0 == ChildrenMap(children)
    ensures SoundCache(children, Access(children, cache).1)
  {
  }

  /** Two accesses to a compound with a repeated child name: the first throws, the second,
      as written, returns a one-entry dictionary; the intended accesses both throw. */
  lemma PartialCacheAfterDuplicate()
    ensures
      var a := ByteTag(Some([0x61]), 0);
      var children := [Some(a), Some(ByteTag(Some([0x61]), 1))];
      var first := AccessAsWritten(children, None);
      && first.0 == Err(DuplicateName([0x61]))
      && AccessAsWritten(children, first.1).0 == Ok([([0x61], a)])
      && Access(children, Access(children, None).1).0 == Err(DuplicateName([0x61]))
  {
    var a := ByteTag(Some([0x61]), 0);
    var children := [Some(a), Some(ByteTag(Some([0x61]), 1))];
    assert children[..1] == [Some(a)];
    assert [Some(a)][..0] == [];
    assert Build([Some(a)]) == Fill([([0x61], a)], None);
    assert Keys([([0x61], a)]) == [[0x61]];
    assert Build(children) == Fill([([0x61], a)], Some(DuplicateName([0x61])));
  }

  /** A CompoundTag object: its immutable name and children, and the cached dictionary field. */
  class CompoundTagObject {
    const name: Name
    const children: seq<Option<Tag>>
    var childrenMap: Option<Entries>

    predicate Valid()
      reads this
    {
      SoundCache(children, childrenMap)
    }

    constructor (name: Name, children: seq<Option<Tag>>)
      ensures this.name == name && this.children == children && childrenMap.None?
      ensures Valid()
    {
      this.name := name;
      this.children := children;
      childrenMap := None;
    }

    /** The ChildrenMap getter as written. */
    method ChildrenMapAsWritten() returns (r: Result<Entries>)
      modifies this
      ensures (r, childrenMap) == AccessAsWritten(children, old(childrenMap))
    {
      if childrenMap.Some? {
        return Ok(childrenMap.value);
      }
      childrenMap := Some([]);
      var i := 0;
      while i < |children|
        invariant 0 <= i <= |children| && childrenMap.Some?
        invariant Build(children[..i]) == Fill(childrenMap.value, None)
      {
        assert children[..i + 1][..i] == children[..i];
        var child := children[i];
        if child.Some? {
          var added := AddChild(childrenMap.value, child.value);
          if added.Err? {
            BuildStopsAtFailure(children, i + 1);
            return Err(added.error);
          }
          childrenMap := Some(added.value);
        }
        i := i + 1;
      }
      assert children[..i] == children;
      return Ok(childrenMap.value);
    }

    /** The ChildrenMap getter as intended: the dictionary is stored only once complete. */
    method GetChildrenMap() returns (r: Result<Entries>)
      requires Valid()
      modifies this
      ensures r == ChildrenMap(children) && Valid()
      ensures (r, childrenMap) == Access(children, old(childrenMap))
    {
      if childrenMap.Some? {
        return Ok(childrenMap.value);
      }
      var filled := [];
      var i := 0;
      while i < |children|
        invariant 0 <= i <= |children|
        invariant Build(children[..i]) == Fill(filled, None)
      {
        assert children[..i + 1][..i] == children[..i];
        var child := children[i];
        if child.Some? {
          var added := AddChild(filled, child.value);
          if added.Err? {
            BuildStopsAtFailure(children, i + 1);
            return Err(added.error);
          }
          filled := added.value;
        }
        i := i + 1;
      }
      assert children[..i] == children;
      childrenMap := Some(filled);
      return Ok(filled);
    }
  }
}
