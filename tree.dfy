/** The JSON-like state tree and addressing of its nodes by key paths. */
module Tree {
  import opened Base
  import opened Text

  /** A state value. `Undefined` is JavaScript's `undefined` (a missing field, a
      marker built without a default); object fields keep their insertion order. */
  datatype Value =
    | Undefined
    | Null
    | Bool(b: bool)
    | Num(n: int)
    | Str(s: string)
    | Arr(items: seq<Value>)
    | Obj(fields: seq<(string, Value)>)

  /** JavaScript truthiness. */
  predicate Truthy(v: Value)
  {
    match v
    case Undefined => false
    case Null => false
    case Bool(b) => b
    case Num(n) => n != 0
    case Str(s) => s != ""
    case _ => true
  }

  /** The names of an object's entries, in order. */
  function KeysOf<T>(entries: seq<(string, T)>): (r: seq<string>)
    ensures |r| == |entries|
    ensures forall i :: 0 <= i < |entries| ==> r[i] == entries[i].0
  {
    if entries == [] then [] else [entries[0].0] + KeysOf(entries[1..])
  }

  /** `obj[k]`: the first entry named `k`. */
  function Find<T>(entries: seq<(string, T)>, k: string): (r: Option<T>)
    ensures r.None? <==> k !in KeysOf(entries)
  {
    if entries == [] then None
    else if entries[0].0 == k then Some(entries[0].1)
    else Find(entries[1..], k)
  }

  /** `obj[k] = x`: overwrites the entry named `k` where it stands, or appends one. */
  function Assign<T>(entries: seq<(string, T)>, k: string, x: T): seq<(string, T)>
  {
    if entries == [] then [(k, x)]
    else if entries[0].0 == k then [(k, x)] + entries[1..]
    else [entries[0]] + Assign(entries[1..], k, x)
  }

  /** After `obj[k] = x`, `obj[k]` is `x`, every other name reads what it read
      before, and `k` is listed once: where it stood, or last. */
  lemma {:induction false} AssignFind<T>(entries: seq<(string, T)>, k: string, x: T, m: string)
    ensures Find(Assign(entries, k, x), m) == if m == k then Some(x) else Find(entries, m)
    ensures k in KeysOf(entries) ==> KeysOf(Assign(entries, k, x)) == KeysOf(entries)
    ensures k !in KeysOf(entries) ==> KeysOf(Assign(entries, k, x)) == KeysOf(entries) + [k]
  {
    if entries != [] && entries[0].0 != k {
      AssignFind(entries[1..], k, x, m);
      assert KeysOf(entries) == [entries[0].0] + KeysOf(entries[1..]);
    }
  }

  /** The names are pairwise different. */
  predicate Distinct(s: seq<string>)
  {
    forall i, j :: 0 <= i < j < |s| ==> s[i] != s[j]
  }

  /** `obj[k] = x` then reading `k` gives `x`. */
  lemma AssignSame<T>(entries: seq<(string, T)>, k: string, x: T)
    ensures Find(Assign(entries, k, x), k) == Some(x)
  {
    AssignFind(entries, k, x, k);
  }

  /** `obj[k] = x` leaves every other name as it was. */
  lemma AssignOther<T>(entries: seq<(string, T)>, k: string, x: T, m: string)
    requires m != k
    ensures Find(Assign(entries, k, x), m) == Find(entries, m)
  {
    AssignFind(entries, k, x, m);
  }

  /** `obj[k] = x` adds the name `k` when it was missing. */
  lemma AssignNames<T>(entries: seq<(string, T)>, k: string, x: T)
    ensures forall m :: m in KeysOf(Assign(entries, k, x)) <==> m in KeysOf(entries) || m == k
  {
    AssignFind(entries, k, x, k);
  }

  /** `obj[k] = x` keeps the names distinct. */
  lemma AssignDistinct<T>(entries: seq<(string, T)>, k: string, x: T)
    requires Distinct(KeysOf(entries))
    ensures Distinct(KeysOf(Assign(entries, k, x)))
  {
    AssignFind(entries, k, x, k);
  }

  /** One segment of a routing path: a field name or an array index. */
  datatype Key = Prop(name: string) | Idx(index: int)

  /** The property name a key reads: `obj[3]` reads the field `"3"`. */
  function Slot(k: Key): string
  {
    match k
    case Prop(n) => n
    case Idx(i) => IntToString(i)
  }

  /** `v[k]`, or `None` where JavaScript yields `undefined`. */
  function Child(v: Value, k: Key): Option<Value>
  {
    match v
    case Arr(items) =>
      if k.Idx? && 0 <= k.index < |items| then Some(items[k.index]) else None
    case Obj(fields) => Find(fields, Slot(k))
    case _ => None
  }

  /** `v[k] = x` where `v[k]` exists; anything else is left as it is. */
  function Replace(v: Value, k: Key, x: Value): (r: Value)
    requires Child(v, k).Some?
    ensures Child(r, k) == Some(x)
  {
    match v
    case Arr(items) => Arr(items[k.index := x])
    case Obj(fields) => AssignSame(fields, Slot(k), x); Obj(Assign(fields, Slot(k), x))
  }

  /** The node `v[p0][p1]...[pn]`. */
  function GetPath(v: Value, path: seq<Key>): Option<Value>
    decreases |path|
  {
    if path == [] then Some(v)
    else
      match Child(v, path[0])
      case None => None
      case Some(c) => GetPath(c, path[1..])
  }

  /** The tree after `f` rewrote the node at `path`, when that node exists. */
  function UpdatePath(v: Value, path: seq<Key>, f: Value -> Value): Value
    decreases |path|
  {
    if path == [] then f(v)
    else
      match Child(v, path[0])
      case None => v
      case Some(c) => Replace(v, path[0], UpdatePath(c, path[1..], f))
  }

  lemma ParseIntOfInt(i: int)
    ensures ParseInt(IntToString(i)) == Some(i)
  {
    if i >= 0 {
      ParseIntOfNat(i);
    } else {
      var body := NatToString(-i);
      var s := "-" + body;
      assert s[1..] == body;
      AllDigitsRun(body);
      assert body[..|body|] == body;
      DigitsValueOfNat(-i);
    }
  }

  lemma IntToStringInjective(i: int, j: int)
    requires IntToString(i) == IntToString(j)
    ensures i == j
  {
    ParseIntOfInt(i);
    ParseIntOfInt(j);
  }

  /** Keys with different slots address different children; keys with the
      same slot address the same child. */
  lemma ReplaceOther(v: Value, k: Key, x: Value, k': Key)
    requires Child(v, k).Some? && Child(v, k').Some?
    ensures Slot(k') != Slot(k) ==> Child(Replace(v, k, x), k') == Child(v, k')
    ensures Slot(k') == Slot(k) ==> Child(v, k') == Child(v, k)
  {
    if v.Arr? && Slot(k') == Slot(k) {
      IntToStringInjective(k.index, k'.index);
    }
    if v.Obj? && Slot(k') != Slot(k) {
      AssignOther(v.fields, Slot(k), x, Slot(k'));
    }
  }

  /** Two paths part ways at some level: same slots up to it, different there. */
  predicate Diverge(p: seq<Key>, q: seq<Key>)
    decreases |p|
  {
    |p| > 0 && |q| > 0 && (Slot(p[0]) != Slot(q[0]) || Diverge(p[1..], q[1..]))
  }

  /** The addressed node, and only it, is rewritten by `f`. */
  lemma {:induction false} UpdateAddressed(v: Value, path: seq<Key>, f: Value -> Value)
    requires GetPath(v, path).Some?
    ensures GetPath(UpdatePath(v, path, f), path) == Some(f(GetPath(v, path).value))
    decreases |path|
  {
    if path != [] {
      var c := Child(v, path[0]).value;
      UpdateAddressed(c, path[1..], f);
    }
  }

  /** An update at `p` leaves every node on a diverging path `q` as it was. */
  lemma {:induction false} UpdateElsewhere(v: Value, p: seq<Key>, f: Value -> Value, q: seq<Key>)
    requires Diverge(p, q)
    requires GetPath(v, q).Some?
    ensures GetPath(UpdatePath(v, p, f), q) == GetPath(v, q)
    decreases |p|
  {
    var k, k' := p[0], q[0];
    var cq := Child(v, k').value;
    match Child(v, k)
    case None =>
    case Some(c) =>
      var v' := Replace(v, k, UpdatePath(c, p[1..], f));
      ReplaceOther(v, k, UpdatePath(c, p[1..], f), k');
      if Slot(k) == Slot(k') {
        if v.Arr? {
          IntToStringInjective(k.index, k'.index);
        }
        assert Child(v', k') == Child(v', k);
        UpdateElsewhere(c, p[1..], f, q[1..]);
      }
  }

  /** A path that does not resolve leaves the tree unchanged. */
  lemma {:induction false} UpdateUnresolved(v: Value, path: seq<Key>, f: Value -> Value)
    requires GetPath(v, path).None?
    ensures UpdatePath(v, path, f) == v
    decreases |path|
  {
    if path != [] {
      match Child(v, path[0])
      case None =>
      case Some(c) =>
        UpdateUnresolved(c, path[1..], f);
        ReplaceSame(v, path[0]);
    }
  }

  lemma ReplaceSame(v: Value, k: Key)
    requires Child(v, k).Some?
    ensures Replace(v, k, Child(v, k).value) == v
  {
    if v.Obj? {
      AssignFound(v.fields, Slot(k));
    }
  }

  /** Assigning an entry the value it already has changes nothing. */
  lemma {:induction false} AssignFound<T>(entries: seq<(string, T)>, k: string)
    requires Find(entries, k).Some?
    ensures Assign(entries, k, Find(entries, k).value) == entries
  {
    if entries[0].0 != k {
      AssignFound(entries[1..], k);
    }
  }

  /** `state[name]` with a string property name, as a projection selector reads it:
      an array answers only to canonical index names. */
  function Field(v: Value, name: string): Option<Value>
  {
    match v
    case Obj(fields) => Find(fields, name)
    case Arr(items) =>
      var p := ParseInt(name);
      if p.Some? && 0 <= p.value < |items| && NatToString(p.value) == name
      then Some(items[p.value]) else None
    case _ => None
  }

  /** Reading `${i}` as a property name is reading index `i`. */
  lemma FieldOfIndex(v: Value, i: nat)
    ensures Field(v, NatToString(i)) == Child(v, Idx(i))
  {
    ParseIntOfNat(i);
  }
}
