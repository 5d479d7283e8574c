/** How the names the flattener registers meet the names the decorator looks up
    (src/model.ts:194-227 against src/model.ts:281-326 and 390-432): for an
    embedding reached through plain field names, the decorator finds the
    embedded model's actions under the registry key the callback wrote, and
    binds each one to the rewritten reducer the callback built. */
module Naming {
  import opened Base
  import opened Text
  import opened Tree
  import opened Models
  import opened Flatten
  import opened Registry
  import opened ActionProxy

  /** A field name the naming scheme handles: not empty, free of `/`, and not
      read as a number by `parseInt`. */
  predicate PlainName(k: string)
  {
    k != "" && '/' !in k && ParseInt(k).None?
  }

  predicate PlainNames(fs: seq<string>)
  {
    forall i :: 0 <= i < |fs| ==> PlainName(fs[i])
  }

  /** Position of the first entry named `k`. */
  function FieldIndex(entries: seq<(string, Shape)>, k: string): (r: Option<nat>)
    ensures r.Some? ==> r.value < |entries| && entries[r.value].0 == k
  {
    if entries == [] then None
    else if entries[0].0 == k then Some(0)
    else match FieldIndex(entries[1..], k)
      case None => None
      case Some(j) => Some(j + 1)
  }

  /** The declared shape found by following the field names `fs`; a single
      marker is looked through to its default, whose fields the flattener walks
      under the marker's own path. */
  function At(s: Shape, fs: seq<string>): Option<Shape>
    decreases |fs|, s
  {
    if fs == [] then Some(s)
    else
      match s
      case Fields(entries) =>
        (match FieldIndex(entries, fs[0])
         case None => None
         case Some(j) => At(entries[j].1, fs[1..]))
      case Embed(_, false, d) => At(d, fs)
      case _ => None
  }

  /** The walk path of the node under `fs`, starting from `parent`. */
  function PathFrom(parent: string, fs: seq<string>): string
    decreases |fs|
  {
    if fs == [] then parent else PathFrom(ChildPath(parent, fs[0]), fs[1..])
  }

  /** Where a marker's callback fires: its path, with `/[]` for a list. */
  function EventPath(path: string, isList: bool): string
  {
    if isList then path + "/[]" else path
  }

  lemma {:induction false} FieldsWalkIncludes(entries: seq<(string, Shape)>, n: nat, parent: string, j: nat)
    requires j < n <= |entries| && forall i :: 0 <= i < |entries| ==> WellFormed(entries[i].1)
    requires FieldsWalk(entries, n, parent).result.Some?
    ensures InitialWalk(entries[j].1, ChildPath(parent, entries[j].0)).result.Some?
    ensures forall e :: e in InitialWalk(entries[j].1, ChildPath(parent, entries[j].0)).events
                        ==> e in FieldsWalk(entries, n, parent).events
    decreases n
  {
    if j < n - 1 {
      FieldsWalkIncludes(entries, n - 1, parent, j);
    }
  }

  /** Every marker reached through field names makes the walk fire the callback
      with the marker's path, provided the walk does not throw. */
  lemma {:induction false} MarkerFires(s: Shape, parent: string, fs: seq<string>)
    requires WellFormed(s)
    requires At(s, fs).Some? && At(s, fs).value.Embed?
    requires InitialWalk(s, parent).result.Some?
    ensures Event(EventPath(PathFrom(parent, fs), At(s, fs).value.isList), At(s, fs).value.model)
            in InitialWalk(s, parent).events
    decreases |fs|, s
  {
    if fs == [] {
      MarkerWalk(s, parent);
    } else {
      match s
      case Fields(entries) =>
        var j := FieldIndex(entries, fs[0]).value;
        FieldsWalkIncludes(entries, |entries|, parent, j);
        MarkerFires(entries[j].1, ChildPath(parent, fs[0]), fs[1..]);
      case Embed(_, false, d) =>
        MarkerFires(d, parent, fs);
    }
  }

  lemma {:induction false} PathFromJoin(parent: string, fs: seq<string>)
    requires parent != "" && PlainNames(fs)
    ensures PathFrom(parent, fs) == Join([parent] + fs, '/')
    decreases |fs|
  {
    if fs != [] {
      PathFromJoin(parent + "/" + fs[0], fs[1..]);
      JoinHead(parent, fs[0], fs[1..]);
      assert [fs[0]] + fs[1..] == fs;
    }
  }

  /** Joining `[parent/f] + rest` is joining `[parent, f] + rest`. */
  lemma JoinHead(parent: string, f: string, rest: seq<string>)
    ensures Join([parent + "/" + f] + rest, '/') == Join([parent] + ([f] + rest), '/')
  {
    if rest == [] {
      assert [parent] + ([f] + rest) == [parent, f];
      assert [parent + "/" + f] + rest == [parent + "/" + f];
      JoinPair(parent, f);
    } else {
      JoinCons(parent, [f] + rest, '/');
      JoinCons(parent + "/" + f, rest, '/');
      JoinCons(f, rest, '/');
    }
  }

  /** From the root, the walk path of the node under `fs` is `fs.join('/')`. */
  lemma RootPath(fs: seq<string>)
    requires fs != [] && PlainNames(fs)
    ensures PathFrom("", fs) == Join(fs, '/')
  {
    PathFromJoin(fs[0], fs[1..]);
    assert [fs[0]] + fs[1..] == fs;
  }

  lemma {:induction false} JoinNonEmpty(fs: seq<string>)
    requires fs != [] && PlainNames(fs)
    ensures Join(fs, '/') != ""
    decreases |fs|
  {
    if |fs| > 1 {
      assert |Join(fs, '/')| >= |fs[|fs| - 1]|;
    }
  }

  /** `[a, b, c].filter((x) => !!x).join('/')` when only `b` may be empty. */
  lemma JoinThree(a: string, b: string, c: string)
    requires a != "" && c != ""
    ensures Join(NonEmpty([a, b, c]), '/') == if b == "" then a + "/" + c else a + "/" + b + "/" + c
  {
    assert NonEmpty([c]) == [c] by {
      assert [c][1..] == [];
    }
    assert NonEmpty([b, c]) == (if b == "" then [] else [b]) + [c] by {
      assert [b, c][1..] == [c];
    }
    assert NonEmpty([a, b, c]) == [a] + NonEmpty([b, c]) by {
      assert [a, b, c][1..] == [b, c];
    }
    if b == "" {
      JoinPair(a, c);
    } else {
      assert NonEmpty([a, b, c]) == [a, b, c];
      assert [a, b, c][..2] == [a, b];
      JoinPair(a, b);
    }
  }

  lemma JoinPair(a: string, b: string)
    ensures Join([a, b], '/') == a + "/" + b
  {
    assert [a, b][..1] == [a];
  }

  lemma FieldKeyParts(fs: seq<string>)
    requires fs != [] && PlainName(fs[|fs| - 1])
    ensures ActKey(fs) == fs[|fs| - 1]
    ensures FnKey(fs) == Join(fs[..|fs| - 1], '/')
  {
  }

  lemma LoneNonEmpty(a: string, b: string)
    requires a != "" && b != ""
    ensures NonEmpty(["", a, b]) == [a, b]
  {
    assert NonEmpty([b]) == [b] by {
      assert [b][1..] == [];
    }
    assert NonEmpty([a, b]) == [a] + NonEmpty([b]) by {
      assert [a, b][1..] == [b];
    }
    assert ["", a, b][1..] == [a, b];
    assert [a] + [b] == [a, b];
  }

  lemma SingleRegistryKey(name: string, fs: seq<string>)
    requires name != "" && fs != [] && PlainNames(fs)
    ensures RegistryKey(name, fs) == name + "/" + Join(fs, '/')
  {
    var init := fs[..|fs| - 1];
    var last := fs[|fs| - 1];
    FieldKeyParts(fs);
    if init != [] {
      assert PlainNames(init);
      JoinNonEmpty(init);
      DeepRegistryKey(name, fs, init, last);
    } else {
      TopRegistryKey(name, fs, last);
    }
  }

  lemma TopRegistryKey(name: string, fs: seq<string>, last: string)
    requires name != "" && last != "" && fs == [last]
    requires ActKey(fs) == last && FnKey(fs) == ""
    ensures RegistryKey(name, fs) == name + "/" + Join(fs, '/')
  {
    JoinThree(name, "", last);
  }

  lemma DeepRegistryKey(name: string, fs: seq<string>, init: seq<string>, last: string)
    requires name != "" && last != "" && Join(init, '/') != ""
    requires |fs| >= 2 && init == fs[..|fs| - 1] && last == fs[|fs| - 1]
    requires ActKey(fs) == last && FnKey(fs) == Join(init, '/')
    ensures RegistryKey(name, fs) == name + "/" + Join(fs, '/')
  {
    JoinThree(name, Join(init, '/'), last);
  }

  lemma SingleActionKey(fs: seq<string>, act: string)
    requires act != "" && fs != [] && PlainNames(fs)
    ensures ActionKey(fs, act) == Join(fs, '/') + "/" + act
  {
    var init := fs[..|fs| - 1];
    var last := fs[|fs| - 1];
    FieldKeyParts(fs);
    if init == [] {
      TopActionKey(fs, last, act);
    } else {
      assert PlainNames(init);
      JoinNonEmpty(init);
      DeepActionKey(fs, init, last, act);
    }
  }

  lemma TopActionKey(fs: seq<string>, last: string, act: string)
    requires act != "" && last != "" && fs == [last]
    requires ActKey(fs) == last && FnKey(fs) == ""
    ensures ActionKey(fs, act) == Join(fs, '/') + "/" + act
  {
    LoneNonEmpty(last, act);
    JoinPair(last, act);
  }

  lemma DeepActionKey(fs: seq<string>, init: seq<string>, last: string, act: string)
    requires act != "" && last != "" && Join(init, '/') != ""
    requires |fs| >= 2 && init == fs[..|fs| - 1] && last == fs[|fs| - 1]
    requires ActKey(fs) == last && FnKey(fs) == Join(init, '/')
    ensures ActionKey(fs, act) == Join(fs, '/') + "/" + act
  {
    JoinThree(Join(init, '/'), last, act);
  }

  /** The registry key and reducer name of an object reached through plain field
      names `fs`: the node of a single embedding. */
  lemma SingleNodeKeys(name: string, fs: seq<string>, act: string)
    requires name != "" && act != ""
    requires fs != [] && PlainNames(fs)
    ensures RegistryKey(name, fs) == name + "/" + Join(fs, '/')
    ensures ActionKey(fs, act) == Join(fs, '/') + "/" + act
  {
    SingleRegistryKey(name, fs);
    SingleActionKey(fs, act);
  }

  lemma ElementKeyParts(fs: seq<string>, i: nat)
    ensures ActKey(fs + [NatToString(i)]) == "[]"
    ensures FnKey(fs + [NatToString(i)]) == Join(fs, '/')
  {
    var keys := fs + [NatToString(i)];
    assert keys[..|keys| - 1] == fs;
    ParseIntOfNat(i);
  }

  /** The registry key and reducer name of element `i` of a list reached
      through `fs`: `parseInt` reads the index, so the last part becomes `[]`. */
  lemma ListElementKeys(name: string, fs: seq<string>, i: nat, act: string)
    requires name != "" && act != ""
    requires fs != [] && PlainNames(fs)
    ensures RegistryKey(name, fs + [NatToString(i)]) == name + "/" + (Join(fs, '/') + "/[]")
    ensures ActionKey(fs + [NatToString(i)], act) == (Join(fs, '/') + "/[]") + "/" + act
  {
    ElementKeyParts(fs, i);
    JoinNonEmpty(fs);
    var j := Join(fs, '/');
    ElementRegistryKey(name, j);
    ElementActionKey(j, act);
  }

  lemma ElementRegistryKey(name: string, j: string)
    requires name != "" && j != ""
    ensures Join(NonEmpty([name, j, "[]"]), '/') == name + "/" + (j + "/[]")
  {
    JoinThree(name, j, "[]");
    assert name + "/" + j + "/" + "[]" == name + "/" + (j + "/[]");
  }

  lemma ElementActionKey(j: string, act: string)
    requires act != "" && j != ""
    ensures Join(NonEmpty([j, "[]", act]), '/') == (j + "/[]") + "/" + act
  {
    JoinThree(j, "[]", act);
    assert j + "/" + "[]" == j + "/[]";
  }

  /** The keys the decorator reaches an embedded model's state with: the field
      path itself, or, for a list, the field path and the element's index. */
  function NodeKeys(fs: seq<string>, isList: bool, i: nat): seq<string>
  {
    if isList then fs + [NatToString(i)] else fs
  }

  /** The central naming theorem. Take a model `name` whose declared state `s`
      flattens without throwing, and an embedding of model `m` reached through
      plain field names `fs`. Then the flattener fires the callback for it with a
      path `p`. Provided no other callback of the walk resets `${name}/${p}` or
      names one of its own reducers `p/act`, once all callbacks have run the
      decorator at the embedded state's node (element `i` for a list) looks under
      exactly `${name}/${p}`, finds each unprefixed action `act` of `m` there,
      and binds it to the reducer `p/act`, which re-dispatches `act` to `m`. */
  lemma DecoratedNamesRegistered(name: string, s: Shape, fs: seq<string>, i: nat, t: Tables,
                                   node: Value, act: string)
    requires name != "" && WellFormed(s)
    requires fs != [] && PlainNames(fs)
    requires At(s, fs).Some? && At(s, fs).value.Embed?
    requires InitialWalk(s, "").result.Some?
    requires node.Obj? || node.Null?
    requires act in At(s, fs).value.model.actions && act != "" && '/' !in act
    requires act !in At(s, fs).value.model.asyncActions
    requires var p := EventPath(Join(fs, '/'), At(s, fs).value.isList);
             forall e :: e in InitialWalk(s, "").events ==> e == Event(p, At(s, fs).value.model) || Untouched(e, name, p, act)
    ensures var m := At(s, fs).value.model;
            var p := EventPath(Join(fs, '/'), At(s, fs).value.isList);
            var keys := NodeKeys(fs, At(s, fs).value.isList, i);
            var r := RegisterAll(t, name, InitialWalk(s, "").events);
            && Event(p, m) in InitialWalk(s, "").events
            && RegistryKey(name, keys) == name + "/" + p
            && act in Listed(name, keys, r.slices)
            && Find(Decorate(node, keys, name, r.slices).fields, act) == Some(Call(Bound(p + "/" + act, keys)))
            && p + "/" + act in r.reducers && r.reducers[p + "/" + act] == Rewrite(m.name, act, false)
  {
    var marker := At(s, fs).value;
    var m := marker.model;
    var p := EventPath(Join(fs, '/'), marker.isList);
    var keys := NodeKeys(fs, marker.isList, i);
    var r := RegisterAll(t, name, InitialWalk(s, "").events);
    MarkerFires(s, "", fs);
    RootPath(fs);
    if marker.isList {
      ListElementKeys(name, fs, i, act);
    } else {
      SingleNodeKeys(name, fs, act);
    }
    RegisterAllRegisters(t, name, InitialWalk(s, "").events, p, m, act);
    assert SliceKeyOf(name, p, act) == name + "/" + p;
    DecorateBindsActions(node, keys, name, r.slices, act);
  }
}
