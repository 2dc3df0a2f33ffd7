/**
 * Nostr events as the application reads and writes them: a tag is a list of
 * strings, and the codecs look tags up by their first element.
 */
module Nostr {
  import opened Builtins

  type Tag = seq<string>

  /** What `tag?.[1]` yields: absent when there is no tag or no second element. */
  type Value = Option<string>

  /** A signed event as delivered by a relay (signature left out). */
  datatype Event = Event(id: string, pubkey: string, createdAt: int, kind: int, tags: seq<Tag>, content: string)

  /** The test `([name]) => name === n`; an empty tag has an undefined name. */
  predicate Named(t: Tag, name: string) {
    |t| > 0 && t[0] == name
  }

  /** `t[1]`, absent when the tag has fewer than two elements. */
  function Second(t: Tag): (v: Value)
    ensures v.Some? <==> |t| > 1
    ensures v.Some? ==> v.value == t[1]
  {
    if |t| > 1 then Some(t[1]) else None
  }

  /** JavaScript truthiness of an optional string: absent and `""` are falsy. */
  predicate Truthy(v: Value) {
    v.Some? && v.value != ""
  }

  /** Some tag of `tags` has the given name. */
  predicate HasTag(tags: seq<Tag>, name: string) {
    exists i :: 0 <= i < |tags| && Named(tags[i], name)
  }

  /** `tags.find(([n]) => n === name)?.[1]`: the second element of the first tag with that name. */
  function FirstValue(tags: seq<Tag>, name: string): (r: Value)
    ensures !HasTag(tags, name) ==> r == None
  {
    if tags == [] then None
    else if Named(tags[0], name) then Second(tags[0])
    else FirstValue(tags[1..], name)
  }

  /** `tags.filter(([n]) => n === name).map(([, v]) => v)`. */
  function AllValues(tags: seq<Tag>, name: string): (r: seq<Value>)
    ensures |r| <= |tags|
  {
    if tags == [] then []
    else (if Named(tags[0], name) then [Second(tags[0])] else []) + AllValues(tags[1..], name)
  }

  /** `.filter(Boolean)` on a list of optional strings. */
  function Present(vs: seq<Value>): (r: seq<string>)
    ensures |r| <= |vs|
    ensures forall i :: 0 <= i < |r| ==> r[i] != ""
  {
    if vs == [] then []
    else (if Truthy(vs[0]) then [vs[0].value] else []) + Present(vs[1..])
  }

  /** `xs.filter(s => s !== "")`, the non-empty strings of a list in order. */
  function NonEmpty(xs: seq<string>): (r: seq<string>)
    ensures |r| <= |xs|
  {
    if xs == [] then [] else (if xs[0] != "" then [xs[0]] else []) + NonEmpty(xs[1..])
  }

  /** A tag `[name, v]` pushed only when the value is truthy. */
  function OptionalTag(name: string, v: Value): seq<Tag> {
    if Truthy(v) then [[name, v.value]] else []
  }

  /** A list without empty strings is its own non-empty part. */
  lemma {:induction false} NonEmptyOfNonEmpty(xs: seq<string>)
    requires forall i :: 0 <= i < |xs| ==> xs[i] != ""
    ensures NonEmpty(xs) == xs
  {
    if xs != [] {
      NonEmptyOfNonEmpty(xs[1..]);
    }
  }

  // ---------------------------------------------------------------------
  // Lookups over concatenated tag lists

  lemma {:induction false} FirstValueCons(t: Tag, rest: seq<Tag>, name: string)
    ensures FirstValue([t] + rest, name) == if Named(t, name) then Second(t) else FirstValue(rest, name)
  {
    assert ([t] + rest)[1..] == rest;
  }

  /** A lookup that finds its tag in the first part ignores the second part. */
  lemma {:induction false} FirstValueAppendLeft(a: seq<Tag>, b: seq<Tag>, name: string)
    requires HasTag(a, name)
    ensures FirstValue(a + b, name) == FirstValue(a, name)
  {
    if !Named(a[0], name) {
      assert (a + b)[1..] == a[1..] + b;
      var i :| 0 <= i < |a| && Named(a[i], name);
      assert Named(a[1..][i - 1], name);
      FirstValueAppendLeft(a[1..], b, name);
    }
  }

  /** A lookup that finds nothing in the first part is a lookup in the second part. */
  lemma {:induction false} FirstValueAppendRight(a: seq<Tag>, b: seq<Tag>, name: string)
    requires !HasTag(a, name)
    ensures FirstValue(a + b, name) == FirstValue(b, name)
  {
    if a != [] {
      assert !Named(a[0], name);
      assert (a + b)[1..] == a[1..] + b;
      assert !HasTag(a[1..], name) by {
        forall i | 0 <= i < |a[1..]| ensures !Named(a[1..][i], name) {
          assert a[1..][i] == a[i + 1];
        }
      }
      FirstValueAppendRight(a[1..], b, name);
    } else {
      assert a + b == b;
    }
  }

  lemma {:induction false} AllValuesAppend(a: seq<Tag>, b: seq<Tag>, name: string)
    ensures AllValues(a + b, name) == AllValues(a, name) + AllValues(b, name)
  {
    if a == [] {
      assert a + b == b;
    } else {
      var head := if Named(a[0], name) then [Second(a[0])] else [];
      assert (a + b)[0] == a[0];
      assert (a + b)[1..] == a[1..] + b;
      assert AllValues(a + b, name) == head + AllValues(a[1..] + b, name);
      AllValuesAppend(a[1..], b, name);
      assert AllValues(a, name) == head + AllValues(a[1..], name);
    }
  }

  lemma {:induction false} PresentAppend(a: seq<Value>, b: seq<Value>)
    ensures Present(a + b) == Present(a) + Present(b)
  {
    if a == [] {
      assert a + b == b;
    } else {
      assert (a + b)[1..] == a[1..] + b;
      PresentAppend(a[1..], b);
    }
  }

  /** The strings of a list, each as a present value. */
  function Somes(xs: seq<string>): (r: seq<Value>)
    ensures |r| == |xs|
    ensures forall i :: 0 <= i < |xs| ==> r[i] == Some(xs[i])
  {
    seq(|xs|, i requires 0 <= i < |xs| => Some(xs[i]))
  }

  /** The tags `[[name, x] for x in xs]`, as the codecs push them in a loop. */
  function Pairs(name: string, xs: seq<string>): (r: seq<Tag>)
    ensures |r| == |xs|
    ensures forall i :: 0 <= i < |xs| ==> r[i] == [name, xs[i]]
  {
    seq(|xs|, i requires 0 <= i < |xs| => [name, xs[i]])
  }

  /** Reading back the values of pushed pairs gives the pushed strings, in order. */
  lemma {:induction false} AllValuesPairs(name: string, xs: seq<string>)
    ensures AllValues(Pairs(name, xs), name) == Somes(xs)
  {
    if xs != [] {
      assert Pairs(name, xs) == [[name, xs[0]]] + Pairs(name, xs[1..]);
      AllValuesPairs(name, xs[1..]);
      assert Pairs(name, xs)[1..] == Pairs(name, xs[1..]);
    }
  }

  /** Pushed pairs carry no tag of any other name. */
  lemma PairsHaveOnlyTheirName(name: string, xs: seq<string>, other: string)
    requires other != name
    ensures !HasTag(Pairs(name, xs), other)
  {
  }

  /** Values read back from pushed pairs and then filtered are the non-empty pushed strings. */
  lemma {:induction false} PresentOfPairs(name: string, xs: seq<string>)
    ensures Present(AllValues(Pairs(name, xs), name)) == NonEmpty(xs)
  {
    AllValuesPairs(name, xs);
    PresentOfSomes(xs);
  }

  lemma {:induction false} PresentOfSomes(xs: seq<string>)
    ensures Present(Somes(xs)) == NonEmpty(xs)
  {
    var vs := Somes(xs);
    if xs != [] {
      assert vs[1..] == Somes(xs[1..]);
      PresentOfSomes(xs[1..]);
    }
  }

  /** Other tags do not contribute to a name's values. */
  lemma {:induction false} AllValuesOther(tags: seq<Tag>, name: string)
    requires !HasTag(tags, name)
    ensures AllValues(tags, name) == []
  {
    if tags != [] {
      assert !Named(tags[0], name);
      assert !HasTag(tags[1..], name) by {
        forall i | 0 <= i < |tags[1..]| ensures !Named(tags[1..][i], name) {
          assert tags[1..][i] == tags[i + 1];
        }
      }
      AllValuesOther(tags[1..], name);
    }
  }

  /** The lookup finds the tag at position i when no earlier tag has the name. */
  lemma {:induction false} FirstValueAt(tags: seq<Tag>, name: string, i: nat)
    requires i < |tags| && Named(tags[i], name)
    requires forall j :: 0 <= j < i ==> !Named(tags[j], name)
    ensures FirstValue(tags, name) == Second(tags[i])
  {
    if i > 0 {
      assert !Named(tags[0], name);
      forall j | 0 <= j < i - 1 ensures !Named(tags[1..][j], name) {
        assert tags[1..][j] == tags[j + 1];
      }
      FirstValueAt(tags[1..], name, i - 1);
    }
  }

  /** When every tag of that name is `[name, v]` and there is one, the lookup yields `v`. */
  lemma {:induction false} FirstValueOnly(tags: seq<Tag>, name: string, v: string)
    requires [name, v] in tags
    requires forall t :: t in tags && Named(t, name) ==> t == [name, v]
    ensures FirstValue(tags, name) == Some(v)
  {
    if !Named(tags[0], name) {
      assert [name, v] in tags[1..];
      FirstValueOnly(tags[1..], name, v);
    }
  }

  /** No tag of that name: the lookup yields undefined and the filter yields nothing. */
  lemma FirstValueAbsent(tags: seq<Tag>, name: string)
    requires forall t :: t in tags ==> !Named(t, name)
    ensures !HasTag(tags, name)
    ensures FirstValue(tags, name) == None
    ensures AllValues(tags, name) == []
  {
    assert !HasTag(tags, name) by {
      forall i | 0 <= i < |tags| ensures !Named(tags[i], name) {
        assert tags[i] in tags;
      }
    }
    AllValuesOther(tags, name);
  }

  /** A lookup whose value is the only tag of that name, or None when there is none. */
  lemma FirstValueIs(tags: seq<Tag>, name: string, v: Value)
    requires v.Some? ==> [name, v.value] in tags
    requires forall t :: t in tags && Named(t, name) ==> v.Some? && t == [name, v.value]
    ensures FirstValue(tags, name) == v
  {
    if v.Some? {
      FirstValueOnly(tags, name, v.value);
    } else {
      FirstValueAbsent(tags, name);
    }
  }
}
