/** The JSON mapping of INbtTag (NBT/INbtTag.cs): ToJson turns a tag into a JToken tree and
    FromJson turns a tree back into tags. JSON is modelled as the token tree only; its text form
    is not part of the model. */
module Json {
  import opened Binary
  import opened Results
  import opened Tags
  import opened Compound
  import opened Accessors

  /** A JSON number with a fraction: Newtonsoft's JValue keeps the float or double it was made from. */
  datatype Fraction = SingleValue(single: bv32) | DoubleValue(double: bv64)

  /** The JToken kinds the mapping distinguishes; `JOther` is every other kind (dates, GUIDs, raw bytes, ...). */
  datatype JToken =
    | JNull
    | JBoolean(flag: bool)
    | JInteger(integer: int)
    | JFloat(fraction: Fraction)
    | JString(text: Text)
    | JArray(items: ClrArray<JToken>)
    | JObject(properties: seq<(Text, JToken)>)
    | JOther

  /** The JArray of numbers ToJson builds from an array tag's values. */
  function Numbers(a: ClrArray<int>): (items: ClrArray<JToken>)
    ensures |items| == |a| && forall k :: 0 <= k < |a| ==> items[k] == JInteger(a[k])
  {
    seq(|a|, k requires 0 <= k < |a| => JInteger(a[k]))
  }

  /** The properties of the JObject ToJson builds from a dictionary: each key with its converted value. */
  function Properties(e: Entries, vs: seq<JToken>): (ps: seq<(Text, JToken)>)
    requires |vs| == |e|
    ensures |ps| == |e| && forall k :: 0 <= k < |e| ==> ps[k] == (e[k].0, vs[k])
  {
    seq(|e|, k requires 0 <= k < |e| => (e[k].0, vs[k]))
  }

  /** INbtTag.ToJson. EmptyTag is JSON null; BooleanTag is tested before ByteTag and becomes a JSON
      boolean; the other integer classes become numbers; a CompoundTag becomes an object keyed by
      its ChildrenMap (so its failures propagate), a ListTag an array, an array tag an array of numbers. */
  function JsonOf(t: Tag): (r: Result<JToken>)
    ensures r.Err? ==> t.CompoundTag? || t.ListTag?
    ensures t.BooleanTag? ==> r == Ok(JBoolean(GetBoolean(Some(t)).value))
    ensures Integral(t) && !t.BooleanTag? ==> r == Ok(JInteger(StoredValue(t)))
    ensures t.CompoundTag? ==> (r.Ok? ==> ChildrenMap(t.children).Ok?) && (ChildrenMap(t.children).Err? ==> r == ChildrenMap(t.children).PropagateFailure())
    ensures t.CompoundTag? && r.Ok? ==> r.value.JObject? && |r.value.properties| == |ChildrenMap(t.children).value|
    ensures t.ListTag? && r.Ok? ==> r.value.JArray? && |r.value.items| == |t.tags|
    decreases t, 1
  {
    match t
    case EmptyTag => Ok(JNull)
    case StringTag(_, s) => Ok(JString(s))
    case BooleanTag(_, b) => Ok(JBoolean(b))
    case ByteTag(_, b) => Ok(JInteger(b))
    case DoubleTag(_, d) => Ok(JFloat(DoubleValue(d)))
    case FloatTag(_, f) => Ok(JFloat(SingleValue(f)))
    case IntegerTag(_, i) => Ok(JInteger(i))
    case LongTag(_, l) => Ok(JInteger(l))
    case ShortTag(_, s) => Ok(JInteger(s))
    case CompoundTag(_, children) =>
      (match ChildrenMap(children)
       case Err(e) => Err(e)
       case Ok(entries) =>
         EntriesInChildren(children);
         match Collect(JsonOfEntries(t, entries))
         case Err(e) => Err(e)
         case Ok(vs) => Ok(JObject(Properties(entries, vs))))
    case ListTag(_, tags) =>
      (match Collect(JsonOfEach(tags))
       case Err(e) => Err(e)
       case Ok(vs) => Ok(JArray(vs)))
    case ByteArrayTag(_, a) => Ok(JArray(Numbers(a)))
    case IntArrayTag(_, a) => Ok(JArray(Numbers(a)))
    case LongArrayTag(_, a) => Ok(JArray(Numbers(a)))
  }

  /** ToJson of each list element, in order. */
  function JsonOfEach(tags: seq<Tag>): (rs: seq<Result<JToken>>)
    ensures |rs| == |tags| && forall k :: 0 <= k < |tags| ==> rs[k] == JsonOf(tags[k])
    decreases tags, 0
  {
    seq(|tags|, k requires 0 <= k < |tags| => JsonOf(tags[k]))
  }

  /** ToJson of each dictionary value of a compound, in order. */
  function JsonOfEntries(t: Tag, e: Entries): (rs: seq<Result<JToken>>)
    requires t.CompoundTag? && forall k :: 0 <= k < |e| ==> Some(e[k].1) in t.children
    ensures |rs| == |e| && forall k :: 0 <= k < |e| ==> rs[k] == JsonOf(e[k].1)
    decreases t, 0
  {
    seq(|e|, k requires 0 <= k < |e| => JsonOf(e[k].1))
  }

  /** INbtTag.FromJson(name, json). An object becomes a CompoundTag with one child per property,
      named by its key; an array a plain ListTag of unnamed elements; null an EmptyTag (the name is
      dropped); a boolean a BooleanTag; a string a StringTag; an integer an IntegerTag, or an
      OverflowException outside the `int` range; a fraction a DoubleTag holding `single` of it, the
      double `ToObject<float>()` gives; any other kind a NotImplementedException. */
  function TagOf(name: Name, j: JToken, single: Fraction -> bv64): (r: Result<Tag>)
    ensures r.Ok? && !j.JNull? ==> !r.value.EmptyTag? && r.value.name == name
    ensures r.Ok? && j.JNull? ==> r.value == EmptyTag
    ensures r.Err? ==> j.JObject? || j.JArray? || (j.JInteger? && r.error == Overflow) || (j.JOther? && r.error == NotImplemented)
    ensures j.JArray? && r.Ok? ==> r.value.ListTag? && |r.value.tags| == |j.items|
    ensures j.JObject? && r.Ok? ==> r.value.CompoundTag? && |r.value.children| == |j.properties|
    decreases j, 2
  {
    match j
    case JObject(props) =>
      (match Collect(TagsOfProperties(props, single))
       case Err(e) => Err(e)
       case Ok(tags) => Ok(CompoundTag(name, Slots(tags))))
    case JArray(items) =>
      (match Collect(TagsOfItems(items, single))
       case Err(e) => Err(e)
       case Ok(tags) => Ok(ListTag(name, tags)))
    case JNull => Ok(EmptyTag)
    case JBoolean(b) => Ok(BooleanTag(name, b))
    case JString(s) => Ok(StringTag(name, s))
    case JInteger(n) => if -0x8000_0000 <= n < 0x8000_0000 then Ok(IntegerTag(name, n)) else Err(Overflow)
    case JFloat(x) => Ok(DoubleTag(name, single(x)))
    case JOther => Err(NotImplemented)
  }

  /** FromJson(null, item) of each array item, in order. */
  function TagsOfItems(items: seq<JToken>, single: Fraction -> bv64): (rs: seq<Result<Tag>>)
    ensures |rs| == |items| && forall k :: 0 <= k < |items| ==> rs[k] == TagOf(None, items[k], single)
    decreases items, 1
  {
    seq(|items|, k requires 0 <= k < |items| => TagOf(None, items[k], single))
  }

  /** FromJson(key, value) of each object property, in order. */
  function TagsOfProperties(props: seq<(Text, JToken)>, single: Fraction -> bv64): (rs: seq<Result<Tag>>)
    ensures |rs| == |props| && forall k :: 0 <= k < |props| ==> rs[k] == TagOfProperty(props[k], single)
    decreases props, 1
  {
    seq(|props|, k requires 0 <= k < |props| => TagOfProperty(props[k], single))
  }

  /** FromJson(key, value) of one property. */
  function TagOfProperty(p: (Text, JToken), single: Fraction -> bv64): (r: Result<Tag>)
    ensures r == TagOf(Some(p.0), p.1, single)
    decreases p, 0
  {
    TagOf(Some(p.0), p.1, single)
  }

  /** The `INbtTag?[]` a compound is built from: every tag, none of them null. */
  function Slots(tags: seq<Tag>): (cs: seq<Option<Tag>>)
    ensures |cs| == |tags| && forall k :: 0 <= k < |tags| ==> cs[k] == Some(tags[k])
  {
    seq(|tags|, k requires 0 <= k < |tags| => Some(tags[k]))
  }

  /** A slot array without nulls has exactly its tags as the non-null children. */
  lemma {:induction false} PresentOfSlots(tags: seq<Tag>)
    ensures Present(Slots(tags)) == tags
    decreases |tags|
  {
    if tags != [] {
      var init := tags[..|tags| - 1];
      assert Slots(tags)[..|tags| - 1] == Slots(init);
      PresentOfSlots(init);
      assert tags == init + [tags[|tags| - 1]];
    }
  }

  /** Children none of which is null are the slots of their non-null children. */
  lemma SlotsOfPresent(cs: seq<Option<Tag>>)
    requires forall k :: 0 <= k < |cs| ==> cs[k].Some?
    ensures Slots(Present(cs)) == cs
  {
    var tags := seq(|cs|, k requires 0 <= k < |cs| => cs[k].value);
    assert Slots(tags) == cs;
    PresentOfSlots(tags);
  }

  /** The trees that FromJson and then ToJson give back unchanged: integers within `int`, fractions
      that are doubles `single` keeps, no other token kinds, and objects whose keys are distinct and
      whose values are not null (FromJson turns a null value into an EmptyTag, which has no name). */
  predicate Representable(j: JToken, single: Fraction -> bv64)
    decreases j, 2
  {
    match j
    case JNull => true
    case JBoolean(_) => true
    case JString(_) => true
    case JInteger(n) => -0x8000_0000 <= n < 0x8000_0000
    case JFloat(x) => x.DoubleValue? && single(x) == x.double
    case JOther => false
    case JArray(items) => forall k :: 0 <= k < |items| ==> Representable(items[k], single)
    case JObject(props) =>
      && (forall k :: 0 <= k < |props| ==> RepresentableProperty(props[k], single))
      && (forall i, k :: 0 <= i < k < |props| ==> props[i].0 != props[k].0)
  }

  predicate RepresentableProperty(p: (Text, JToken), single: Fraction -> bv64)
    decreases p, 1
  {
    !p.1.JNull? && Representable(p.1, single)
  }

  /** FromJson(key, value) of a property succeeds and ToJson gives the value back. */
  predicate PropertyComesBack(p: (Text, JToken), single: Fraction -> bv64) {
    TagOf(Some(p.0), p.1, single).Ok? && JsonOf(TagOf(Some(p.0), p.1, single).value) == Ok(p.1)
  }

  /** JSON round trip: a representable tree read by FromJson, under any root name, and written
      back by ToJson is the same tree. */
  lemma {:induction false} JsonRoundTrip(name: Name, j: JToken, single: Fraction -> bv64)
    requires Representable(j, single)
    ensures TagOf(name, j, single).Ok? && JsonOf(TagOf(name, j, single).value) == Ok(j)
    decreases j, 2
  {
    match j
    case JArray(items) =>
      forall k | 0 <= k < |items|
        ensures TagOf(None, items[k], single).Ok? && JsonOf(TagOf(None, items[k], single).value) == Ok(items[k])
      {
        JsonRoundTrip(None, items[k], single);
      }
      ArrayRoundTrip(name, items, single);
    case JObject(props) =>
      PropertiesRoundTrip(props, single);
      ObjectRoundTrip(name, props, single);
    case JNull =>
    case JBoolean(_) =>
    case JString(_) =>
    case JInteger(_) =>
    case JFloat(_) =>
  }

  lemma PropertiesRoundTrip(props: seq<(Text, JToken)>, single: Fraction -> bv64)
    requires forall k :: 0 <= k < |props| ==> RepresentableProperty(props[k], single)
    ensures forall k :: 0 <= k < |props| ==> PropertyComesBack(props[k], single)
    decreases props, 1
  {
    forall k | 0 <= k < |props|
      ensures PropertyComesBack(props[k], single)
    {
      PropertyRoundTrip(props[k], single);
    }
  }

  lemma PropertyRoundTrip(p: (Text, JToken), single: Fraction -> bv64)
    requires RepresentableProperty(p, single)
    ensures PropertyComesBack(p, single)
    decreases p, 0
  {
    JsonRoundTrip(Some(p.0), p.1, single);
  }

  /** An array whose items each come back comes back. */
  lemma ArrayRoundTrip(name: Name, items: ClrArray<JToken>, single: Fraction -> bv64)
    requires forall k :: 0 <= k < |items| ==>
      TagOf(None, items[k], single).Ok? && JsonOf(TagOf(None, items[k], single).value) == Ok(items[k])
    ensures TagOf(name, JArray(items), single).Ok? && JsonOf(TagOf(name, JArray(items), single).value) == Ok(JArray(items))
  {
    var tags := seq(|items|, k requires 0 <= k < |items| => TagOf(None, items[k], single).value);
    CollectSucceeds(TagsOfItems(items, single), tags);
    assert TagOf(name, JArray(items), single) == Ok(ListTag(name, tags));
    CollectSucceeds(JsonOfEach(tags), items);
  }

  /** An object with distinct keys whose non-null values each come back comes back. */
  lemma ObjectRoundTrip(name: Name, props: seq<(Text, JToken)>, single: Fraction -> bv64)
    requires forall k :: 0 <= k < |props| ==> !props[k].1.JNull? && PropertyComesBack(props[k], single)
    requires forall i, k :: 0 <= i < k < |props| ==> props[i].0 != props[k].0
    ensures TagOf(name, JObject(props), single).Ok?
    ensures JsonOf(TagOf(name, JObject(props), single).value) == Ok(JObject(props))
  {
    hide *;
    var tags := ObjectRead(name, props, single);
    var e := ObjectEntries(props, tags);
    ObjectWrite(name, props, tags, e);
  }

  /** FromJson of an object whose properties all convert: the compound of the converted properties. */
  lemma ObjectRead(name: Name, props: seq<(Text, JToken)>, single: Fraction -> bv64) returns (tags: seq<Tag>)
    requires forall k :: 0 <= k < |props| ==> !props[k].1.JNull? && PropertyComesBack(props[k], single)
    ensures TagOf(name, JObject(props), single) == Ok(CompoundTag(name, Slots(tags)))
    ensures |tags| == |props|
    ensures forall k :: 0 <= k < |props| ==> TagOf(Some(props[k].0), props[k].1, single) == Ok(tags[k])
    ensures forall k :: 0 <= k < |props| ==> !tags[k].EmptyTag? && tags[k].name == Some(props[k].0)
    ensures forall k :: 0 <= k < |props| ==> JsonOf(tags[k]) == Ok(props[k].1)
  {
    hide JsonOf;
    tags := seq(|props|, k requires 0 <= k < |props| => TagOf(Some(props[k].0), props[k].1, single).value);
    CollectSucceeds(TagsOfProperties(props, single), tags);
  }

  /** The dictionary of the compound FromJson builds from an object with distinct keys: each key
      with its converted value, in the object's order. */
  lemma ObjectEntries(props: seq<(Text, JToken)>, tags: seq<Tag>) returns (e: Entries)
    requires |tags| == |props|
    requires forall k :: 0 <= k < |props| ==> !tags[k].EmptyTag? && tags[k].name == Some(props[k].0)
    requires forall i, k :: 0 <= i < k < |props| ==> props[i].0 != props[k].0
    ensures ChildrenMap(Slots(tags)) == Ok(e)
    ensures |e| == |props| && forall k :: 0 <= k < |e| ==> e[k] == (props[k].0, tags[k])
  {
    hide ChildrenMap, Present, Slots;
    PresentOfSlots(tags);
    assert UniquelyNamed(tags);
    ChildrenMapSpec(Slots(tags));
    e := ChildrenMap(Slots(tags)).value;
    assert forall k :: 0 <= k < |e| ==> e[k] == (props[k].0, tags[k]);
  }

  /** ToJson of that compound when each converted value comes back is the object. */
  lemma ObjectWrite(name: Name, props: seq<(Text, JToken)>, tags: seq<Tag>, e: Entries)
    requires |tags| == |props| && ChildrenMap(Slots(tags)) == Ok(e)
    requires |e| == |props| && forall k :: 0 <= k < |e| ==> e[k] == (props[k].0, tags[k])
    requires forall k :: 0 <= k < |props| ==> JsonOf(tags[k]) == Ok(props[k].1)
    ensures JsonOf(CompoundTag(name, Slots(tags))) == Ok(JObject(props))
  {
    hide ChildrenMap, Slots, Collect, Properties;
    var t := CompoundTag(name, Slots(tags));
    EntriesInChildren(Slots(tags));
    var vs := seq(|props|, k requires 0 <= k < |props| => props[k].1);
    CollectSucceeds(JsonOfEntries(t, e), vs);
    assert Properties(e, vs) == props;
    assert JsonOf(t) == Ok(JObject(Properties(e, vs)));
  }

  /** The name FromJson must be given to rebuild a tag: its own, or none for an EmptyTag. */
  function NameOf(t: Tag): (n: Name)
    ensures !t.EmptyTag? ==> n == t.name
  {
    if t.EmptyTag? then None else t.name
  }

  /** The tags that ToJson and then FromJson give back unchanged: EmptyTag, BooleanTag, StringTag,
      IntegerTag, DoubleTags whose value `single` keeps, lists of such tags without names, and
      compounds whose children are all non-null, uniquely named and such tags. Every other class
      comes back as another class: a ByteTag, ShortTag or LongTag as an IntegerTag, a FloatTag as a
      DoubleTag, an array tag as a ListTag. */
  predicate Stable(t: Tag, single: Fraction -> bv64)
    decreases t, 1
  {
    match t
    case EmptyTag => true
    case BooleanTag(_, _) => true
    case StringTag(_, _) => true
    case IntegerTag(_, _) => true
    case DoubleTag(_, d) => single(DoubleValue(d)) == d
    case ListTag(_, tags) => forall k :: 0 <= k < |tags| ==> NameOf(tags[k]).None? && Stable(tags[k], single)
    case CompoundTag(_, cs) => UniquelyNamed(Present(cs)) && forall k :: 0 <= k < |cs| ==> StableChild(cs[k], single)
    case _ => false
  }

  predicate StableChild(o: Option<Tag>, single: Fraction -> bv64)
    decreases o, 0
  {
    o.Some? && Stable(o.value, single)
  }

  /** ToJson of a tag succeeds and FromJson, given the tag's name, rebuilds it. */
  predicate ComesBack(t: Tag, single: Fraction -> bv64) {
    JsonOf(t).Ok? && TagOf(NameOf(t), JsonOf(t).value, single) == Ok(t)
  }

  /** Tag round trip through JSON: a stable tag written by ToJson and read by FromJson under its
      own name is the same tag. */
  lemma {:induction false} TagRoundTrip(t: Tag, single: Fraction -> bv64)
    requires Stable(t, single)
    ensures ComesBack(t, single)
    decreases t, 1
  {
    match t
    case ListTag(_, tags) =>
      forall k | 0 <= k < |tags|
        ensures NameOf(tags[k]).None? && ComesBack(tags[k], single)
      {
        TagRoundTrip(tags[k], single);
      }
      ListComesBack(t, single);
    case CompoundTag(_, cs) =>
      forall k | 0 <= k < |cs|
        ensures cs[k].Some? && ComesBack(cs[k].value, single)
      {
        ChildRoundTrip(cs[k], single);
      }
      CompoundComesBack(t, single);
    case EmptyTag =>
    case BooleanTag(_, _) =>
    case StringTag(_, _) =>
    case IntegerTag(_, _) =>
    case DoubleTag(_, _) =>
  }

  lemma ChildRoundTrip(o: Option<Tag>, single: Fraction -> bv64)
    requires StableChild(o, single)
    ensures o.Some? && ComesBack(o.value, single)
    decreases o, 0
  {
    TagRoundTrip(o.value, single);
  }

  /** A list whose unnamed elements each come back comes back. */
  lemma ListComesBack(t: Tag, single: Fraction -> bv64)
    requires t.ListTag? && forall k :: 0 <= k < |t.tags| ==> NameOf(t.tags[k]).None? && ComesBack(t.tags[k], single)
    ensures ComesBack(t, single)
  {
    var tags := t.tags;
    var vs := seq(|tags|, k requires 0 <= k < |tags| => JsonOf(tags[k]).value);
    CollectSucceeds(JsonOfEach(tags), vs);
    assert JsonOf(t) == Ok(JArray(vs));
    CollectSucceeds(TagsOfItems(vs, single), tags);
  }

  /** A uniquely named compound whose children are non-null and each come back comes back. */
  lemma CompoundComesBack(t: Tag, single: Fraction -> bv64)
    requires t.CompoundTag? && UniquelyNamed(Present(t.children))
    requires forall k :: 0 <= k < |t.children| ==> t.children[k].Some? && ComesBack(t.children[k].value, single)
    ensures ComesBack(t, single)
  {
    hide *;
    var e, vs := CompoundWrite(t, single);
    CompoundRead(t, e, vs, single);
  }

  /** ToJson of such a compound: the object of its dictionary's keys with the converted children. */
  lemma CompoundWrite(t: Tag, single: Fraction -> bv64) returns (e: Entries, vs: seq<JToken>)
    requires t.CompoundTag? && UniquelyNamed(Present(t.children))
    requires forall k :: 0 <= k < |t.children| ==> t.children[k].Some? && ComesBack(t.children[k].value, single)
    ensures ChildrenMap(t.children) == Ok(e) && |vs| == |e| && JsonOf(t) == Ok(JObject(Properties(e, vs)))
    ensures Slots(Present(t.children)) == t.children && |e| == |Present(t.children)|
    ensures forall k :: 0 <= k < |e| ==> e[k].1 == Present(t.children)[k] && NameOf(e[k].1) == Some(e[k].0)
    ensures forall k :: 0 <= k < |e| ==> JsonOf(e[k].1) == Ok(vs[k]) && TagOf(Some(e[k].0), vs[k], single) == Ok(e[k].1)
  {
    hide Slots, Collect, Properties, TagOf;
    ChildrenMapSpec(t.children);
    e := ChildrenMap(t.children).value;
    SlotsOfPresent(t.children);
    EntriesInChildren(t.children);
    assert forall k :: 0 <= k < |e| ==> ComesBack(e[k].1, single) by {
      forall k | 0 <= k < |e|
        ensures ComesBack(e[k].1, single)
      {
        var i :| 0 <= i < |t.children| && t.children[i] == Some(e[k].1);
      }
    }
    vs := seq(|e|, k requires 0 <= k < |e| => JsonOf(e[k].1).value);
    CollectSucceeds(JsonOfEntries(t, e), vs);
    assert JsonOf(t) == Ok(JObject(Properties(e, vs)));
  }

  /** FromJson of that object under the compound's name is the compound. */
  lemma CompoundRead(t: Tag, e: Entries, vs: seq<JToken>, single: Fraction -> bv64)
    requires t.CompoundTag? && ChildrenMap(t.children) == Ok(e) && |vs| == |e| && JsonOf(t) == Ok(JObject(Properties(e, vs)))
    requires Slots(Present(t.children)) == t.children && |e| == |Present(t.children)|
    requires forall k :: 0 <= k < |e| ==> e[k].1 == Present(t.children)[k] && NameOf(e[k].1) == Some(e[k].0)
    requires forall k :: 0 <= k < |e| ==> JsonOf(e[k].1) == Ok(vs[k]) && TagOf(Some(e[k].0), vs[k], single) == Ok(e[k].1)
    ensures ComesBack(t, single)
  {
    hide JsonOf, ChildrenMap, Slots, Present;
    var props := Properties(e, vs);
    CollectSucceeds(TagsOfProperties(props, single), Present(t.children));
    assert TagOf(t.name, JObject(props), single) == Ok(CompoundTag(t.name, Slots(Present(t.children))));
  }

  /** INbtTag.ToJson as the source runs it: the scalar cases read the value through the tag's
      accessor, and the compound, list and array cases fill a JObject or JArray in a `foreach` loop. */
  method ToJson(t: Tag) returns (r: Result<JToken>)
    ensures r == JsonOf(t)
    decreases t
  {
    match t
    case EmptyTag => return Ok(JNull);
    case StringTag(_, _) => return Ok(JString(GetString(Some(t)).value));
    case BooleanTag(_, _) => return Ok(JBoolean(GetBoolean(Some(t)).value));
    case ByteTag(_, _) => return Ok(JInteger(GetByte(Some(t)).value));
    case DoubleTag(_, d) => return Ok(JFloat(DoubleValue(d)));
    case FloatTag(_, f) => return Ok(JFloat(SingleValue(f)));
    case IntegerTag(_, _) => return Ok(JInteger(GetInteger(Some(t)).value));
    case LongTag(_, _) => return Ok(JInteger(GetLong(Some(t)).value));
    case ShortTag(_, _) => return Ok(JInteger(GetShort(Some(t)).value));
    case CompoundTag(_, children) =>
      var m := ChildrenMap(children);
      if m.Err? {
        return Err(m.error);
      }
      r := ObjectToJson(t, m.value);
    case ListTag(_, tags) =>
      r := ListToJson(t);
    case ByteArrayTag(_, a) =>
      var items := NumbersToJson(a);
      return Ok(JArray(items));
    case IntArrayTag(_, a) =>
      var items := NumbersToJson(a);
      return Ok(JArray(items));
    case LongArrayTag(_, a) =>
      var items := NumbersToJson(a);
      return Ok(JArray(items));
  }

  /** The compound case of ToJson: `obj[key] = ToJson(value)` for each ChildrenMap entry in turn. */
  method ObjectToJson(t: Tag, e: Entries) returns (r: Result<JToken>)
    requires t.CompoundTag? && ChildrenMap(t.children) == Ok(e)
    ensures r == JsonOf(t)
    decreases t, 0
  {
    hide *;
    EntriesInChildren(t.children);
    var props: seq<(Text, JToken)> := [];
    for i := 0 to |e|
      invariant |props| == i
      invariant forall k :: 0 <= k < i ==> props[k].0 == e[k].0 && JsonOf(e[k].1) == Ok(props[k].1)
    {
      var v := ToJson(e[i].1);
      if v.Err? {
        CollectFails(JsonOfEntries(t, e), i);
        ObjectToJsonFails(t, e);
        return Err(v.error);
      }
      props := props + [(e[i].0, v.value)];
    }
    var vs := seq(|e|, k requires 0 <= k < |e| => props[k].1);
    CollectSucceeds(JsonOfEntries(t, e), vs);
    ObjectToJsonSucceeds(t, e, vs);
    assert props == Properties(e, vs);
    return Ok(JObject(props));
  }

  lemma ObjectToJsonFails(t: Tag, e: Entries)
    requires t.CompoundTag? && ChildrenMap(t.children) == Ok(e)
    requires forall k :: 0 <= k < |e| ==> Some(e[k].1) in t.children
    requires Collect(JsonOfEntries(t, e)).Err?
    ensures JsonOf(t) == Err(Collect(JsonOfEntries(t, e)).error)
  {
  }

  lemma ObjectToJsonSucceeds(t: Tag, e: Entries, vs: seq<JToken>)
    requires t.CompoundTag? && ChildrenMap(t.children) == Ok(e)
    requires forall k :: 0 <= k < |e| ==> Some(e[k].1) in t.children
    requires Collect(JsonOfEntries(t, e)) == Ok(vs)
    ensures JsonOf(t) == Ok(JObject(Properties(e, vs)))
  {
  }

  /** The list case of ToJson: `arr.Add(item.ToJson())` for each element in turn. */
  method ListToJson(t: Tag) returns (r: Result<JToken>)
    requires t.ListTag?
    ensures r == JsonOf(t)
    decreases t, 0
  {
    hide *;
    var items: seq<JToken> := [];
    for i := 0 to |t.tags|
      invariant |items| == i
      invariant forall k :: 0 <= k < i ==> JsonOf(t.tags[k]) == Ok(items[k])
    {
      var v := ToJson(t.tags[i]);
      if v.Err? {
        CollectFails(JsonOfEach(t.tags), i);
        ListToJsonFails(t);
        return Err(v.error);
      }
      items := items + [v.value];
    }
    CollectSucceeds(JsonOfEach(t.tags), items);
    ListToJsonSucceeds(t, items);
    return Ok(JArray(items));
  }

  lemma ListToJsonFails(t: Tag)
    requires t.ListTag? && Collect(JsonOfEach(t.tags)).Err?
    ensures JsonOf(t) == Err(Collect(JsonOfEach(t.tags)).error)
  {
  }

  lemma ListToJsonSucceeds(t: Tag, items: seq<JToken>)
    requires t.ListTag? && Collect(JsonOfEach(t.tags)) == Ok(items)
    ensures JsonOf(t) == Ok(JArray(items))
  {
  }

  /** The array-tag cases of ToJson: each value added to the JArray as a number. */
  method NumbersToJson(a: ClrArray<int>) returns (items: ClrArray<JToken>)
    ensures items == Numbers(a)
  {
    items := [];
    for i := 0 to |a|
      invariant |items| == i
      invariant forall k :: 0 <= k < i ==> items[k] == JInteger(a[k])
    {
      items := items + [JInteger(a[i])];
    }
  }

  /** INbtTag.FromJson as the source runs it: objects and arrays collect their converted members
      into a `List<INbtTag>` in a `foreach` loop, then build the compound or list from it. */
  method FromJson(name: Name, j: JToken, single: Fraction -> bv64) returns (r: Result<Tag>)
    ensures r == TagOf(name, j, single)
    decreases j, 2
  {
    match j
    case JObject(props) => r := ObjectFromJson(name, props, single);
    case JArray(items) => r := ArrayFromJson(name, items, single);
    case JNull => return Ok(EmptyTag);
    case JBoolean(b) => return Ok(BooleanTag(name, b));
    case JString(s) => return Ok(StringTag(name, s));
    case JInteger(n) =>
      if n < -0x8000_0000 || 0x8000_0000 <= n {
        return Err(Overflow);
      }
      return Ok(IntegerTag(name, n));
    case JFloat(x) => return Ok(DoubleTag(name, single(x)));
    case JOther => return Err(NotImplemented);
  }

  /** The object case of FromJson: `tags.Add(FromJson(key, value))` for each property in turn. */
  method ObjectFromJson(name: Name, props: seq<(Text, JToken)>, single: Fraction -> bv64) returns (r: Result<Tag>)
    ensures r == TagOf(name, JObject(props), single)
    decreases props, 1
  {
    hide *;
    var tags: seq<Tag> := [];
    for i := 0 to |props|
      invariant |tags| == i
      invariant forall k :: 0 <= k < i ==> TagOfProperty(props[k], single) == Ok(tags[k])
    {
      var v := PropertyFromJson(props[i], single);
      if v.Err? {
        CollectFails(TagsOfProperties(props, single), i);
        ObjectFromJsonFails(name, props, single);
        return Err(v.error);
      }
      tags := tags + [v.value];
    }
    CollectSucceeds(TagsOfProperties(props, single), tags);
    ObjectFromJsonSucceeds(name, props, single, tags);
    return Ok(CompoundTag(name, Slots(tags)));
  }

  lemma ObjectFromJsonFails(name: Name, props: seq<(Text, JToken)>, single: Fraction -> bv64)
    requires Collect(TagsOfProperties(props, single)).Err?
    ensures TagOf(name, JObject(props), single) == Err(Collect(TagsOfProperties(props, single)).error)
  {
  }

  lemma ObjectFromJsonSucceeds(name: Name, props: seq<(Text, JToken)>, single: Fraction -> bv64, tags: seq<Tag>)
    requires Collect(TagsOfProperties(props, single)) == Ok(tags)
    ensures TagOf(name, JObject(props), single) == Ok(CompoundTag(name, Slots(tags)))
  {
  }

  /** The array case of FromJson: `tags.Add(FromJson(null, item))` for each item in turn. */
  method ArrayFromJson(name: Name, items: ClrArray<JToken>, single: Fraction -> bv64) returns (r: Result<Tag>)
    ensures r == TagOf(name, JArray(items), single)
    decreases items, 1
  {
    hide *;
    var tags: seq<Tag> := [];
    for i := 0 to |items|
      invariant |tags| == i
      invariant forall k :: 0 <= k < i ==> TagOf(None, items[k], single) == Ok(tags[k])
    {
      var v := FromJson(None, items[i], single);
      if v.Err? {
        CollectFails(TagsOfItems(items, single), i);
        ArrayFromJsonFails(name, items, single);
        return Err(v.error);
      }
      tags := tags + [v.value];
    }
    CollectSucceeds(TagsOfItems(items, single), tags);
    ArrayFromJsonSucceeds(name, items, single, tags);
    return Ok(ListTag(name, tags));
  }

  lemma ArrayFromJsonFails(name: Name, items: ClrArray<JToken>, single: Fraction -> bv64)
    requires Collect(TagsOfItems(items, single)).Err?
    ensures TagOf(name, JArray(items), single) == Err(Collect(TagsOfItems(items, single)).error)
  {
  }

  lemma ArrayFromJsonSucceeds(name: Name, items: ClrArray<JToken>, single: Fraction -> bv64, tags: seq<Tag>)
    requires Collect(TagsOfItems(items, single)) == Ok(tags)
    ensures TagOf(name, JArray(items), single) == Ok(ListTag(name, tags))
  {
  }

  /** FromJson(key, value) of one object property. */
  method PropertyFromJson(p: (Text, JToken), single: Fraction -> bv64) returns (r: Result<Tag>)
    ensures r == TagOfProperty(p, single)
    decreases p, 0
  {
    r := FromJson(Some(p.0), p.1, single);
  }

  /** A BooleanTag written to JSON and read back without a name is a BooleanTag with the same
      value: ToJson tests for BooleanTag before ByteTag, and FromJson turns a JSON boolean into one. */
  lemma BooleanThroughJson(n: Name, b: bool, single: Fraction -> bv64)
    ensures JsonOf(BooleanTag(n, b)) == Ok(JBoolean(b))
    ensures TagOf(None, JsonOf(BooleanTag(n, b)).value, single) == Ok(BooleanTag(None, b))
    ensures GetBoolean(Some(TagOf(None, JsonOf(BooleanTag(n, b)).value, single).value)) == Ok(b)
  {
    BooleanTagAccessors(n, b);
  }

  /** Every other integer class comes back from JSON as an IntegerTag holding the same value, and
      a value outside the `int` range (only a LongTag can hold one) makes FromJson overflow. */
  lemma IntegralThroughJson(t: Tag, single: Fraction -> bv64)
    requires Integral(t) && !t.BooleanTag?
    ensures JsonOf(t).Ok?
    ensures -0x8000_0000 <= StoredValue(t) < 0x8000_0000 ==>
      TagOf(t.name, JsonOf(t).value, single) == Ok(IntegerTag(t.name, StoredValue(t)))
    ensures !(-0x8000_0000 <= StoredValue(t) < 0x8000_0000) ==>
      t.LongTag? && TagOf(t.name, JsonOf(t).value, single) == Err(Overflow)
  {
  }

  /** A null property value becomes an EmptyTag child, which FromJson accepts, but the compound it
      builds cannot be written back: ToJson's ChildrenMap asks the EmptyTag for its name, and that throws. */
  lemma NullPropertyNotWritable(key: Text, single: Fraction -> bv64)
    ensures TagOf(None, JObject([(key, JNull)]), single) == Ok(CompoundTag(None, [Some(EmptyTag)]))
    ensures JsonOf(CompoundTag(None, [Some(EmptyTag)])) == Err(NotSupported)
  {
    assert TagsOfProperties([(key, JNull)], single) == [Ok(EmptyTag)];
    CollectSucceeds([Ok(EmptyTag)], [EmptyTag]);
    assert Slots([EmptyTag]) == [Some(EmptyTag)];
    assert Build([Some(EmptyTag)]) == Fill([], Some(NotSupported)) by {
      assert [Some(EmptyTag)][..0] == [];
    }
  }
}
