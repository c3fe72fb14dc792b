/** What a Python caller can hand to canonical.py: floats, any dictionary keys, entries in insertion order. */
module PythonValues {
  import opened Texts
  import opened JsonValues
  import opened Refusal

  /** An entry of a dictionary: its key is a string, or something else. */
  datatype Entry = Named(key: Text, val: PyValue) | Unnamed(val: PyValue)

  /** A float is its shortest exact text, or none for NaN and the infinities. */
  datatype PyValue =
    | PyNone
    | PyBool(b: bool)
    | PyInt(n: int)
    | PyFloat(repr: Option<Text>)
    | PyStr(s: Text)
    | PyList(items: seq<PyValue>)
    | PyDict(entries: seq<Entry>)

  /** A dictionary has each key once, and texts are code points. */
  ghost predicate Holdable(v: PyValue)
  {
    match v
    case PyStr(s) => CodePoints(s)
    case PyFloat(repr) => repr.Some? ==> CodePoints(repr.value)
    case PyList(items) => forall k :: 0 <= k < |items| ==> Holdable(items[k])
    case PyDict(es) =>
      && (forall i, j :: 0 <= i < j < |es| && es[i].Named? && es[j].Named? ==> es[i].key != es[j].key)
      && forall k :: 0 <= k < |es| ==> Holdable(es[k].val) && (es[k].Named? ==> CodePoints(es[k].key))
    case _ => true
  }

  /** `_refuse_floats` on any value, node by node. */
  predicate GuardRefuses(v: PyValue, depth: nat)
  {
    depth > MAX_JSON_DEPTH ||
    match v
    case PyFloat(_) => true
    case PyInt(n) => n < -MAX_SAFE_INT || n > MAX_SAFE_INT
    case PyStr(s) => HasSurrogate(s)
    case PyList(items) => exists k :: 0 <= k < |items| && GuardRefuses(items[k], depth + 1)
    case PyDict(es) => exists k :: 0 <= k < |es| && GuardRefusesEntry(es[k], depth)
    case _ => false
  }

  predicate GuardRefusesEntry(e: Entry, depth: nat)
  {
    e.Unnamed? || RefusesKey(e.key, depth + 1) || GuardRefuses(e.val, depth + 1)
  }

  // ---- the JSON value of a Python value ------------------------------------------------------------

  /** None where there is a float or a key that is not a string. */
  function Plain(v: PyValue): (r: Option<Json>)
  {
    match v
    case PyNone => Some(Null)
    case PyBool(b) => Some(Bool(b))
    case PyInt(n) => Some(Int(n))
    case PyFloat(_) => None
    case PyStr(s) => Some(Str(s))
    case PyList(items) => var r := PlainItems(items); if r.None? then None else Some(Array(r.value))
    case PyDict(es) => var r := PlainMembers(es); if r.None? then None else Some(Object(r.value))
  }

  function PlainItems(items: seq<PyValue>): (r: Option<seq<Json>>)
  {
    if items == [] then Some([])
    else
      var v, rest := Plain(items[0]), PlainItems(items[1..]);
      if v.None? || rest.None? then None else Some([v.value] + rest.value)
  }

  /** The entries in key order. */
  function PlainMembers(es: seq<Entry>): (r: Option<seq<Member>>)
  {
    if es == [] then Some([])
    else
      match es[0]
      case Unnamed(_) => None
      case Named(key, val) =>
        var v, rest := Plain(val), PlainMembers(es[1..]);
        if v.None? || rest.None? then None else Some(Put(rest.value, key, v.value))
  }

  lemma {:induction false} PlainItemsAre(items: seq<PyValue>)
    ensures PlainItems(items).Some? <==> forall k :: 0 <= k < |items| ==> Plain(items[k]).Some?
    ensures PlainItems(items).Some? ==>
      |PlainItems(items).value| == |items|
        && forall k :: 0 <= k < |items| ==> PlainItems(items).value[k] == Plain(items[k]).value
  {
    hide Plain;
    if items != [] {
      PlainItemsAre(items[1..]);
      assert items == [items[0]] + items[1..];
    }
  }

  ghost predicate PlainEntry(e: Entry) { e.Named? && Plain(e.val).Some? }

  function MemberOf(e: Entry): (m: Member)
    requires PlainEntry(e)
  {
    Member(e.key, Plain(e.val).value)
  }

  lemma {:induction false} PlainMembersAre(es: seq<Entry>)
    ensures PlainMembers(es).Some? <==> forall k :: 0 <= k < |es| ==> PlainEntry(es[k])
    ensures PlainMembers(es).Some? ==>
      forall m :: m in PlainMembers(es).value <==>
        exists k :: 0 <= k < |es| && PlainEntry(es[k]) && m == MemberOf(es[k])
  {
    hide Plain, Put;
    if es != [] {
      var rest := es[1..];
      PlainMembersAre(rest);
      assert es == [es[0]] + rest;
      if PlainMembers(es).Some? {
        var ms := PlainMembers(rest).value;
        PutMembers(ms, es[0].key, Plain(es[0].val).value);
        forall m ensures m in PlainMembers(es).value <==>
          exists k :: 0 <= k < |es| && PlainEntry(es[k]) && m == MemberOf(es[k]) {
          if m in ms {
            var k :| 0 <= k < |rest| && PlainEntry(rest[k]) && m == MemberOf(rest[k]);
            assert es[k + 1] == rest[k];
          }
          if k :| 0 < k < |es| && PlainEntry(es[k]) && m == MemberOf(es[k]) { assert rest[k - 1] == es[k]; }
          assert PlainEntry(es[0]);
        }
      }
    }
  }

  lemma {:induction false} PlainSorted(es: seq<Entry>)
    requires forall i, j :: 0 <= i < j < |es| && es[i].Named? && es[j].Named? ==> es[i].key != es[j].key
    ensures PlainMembers(es).Some? ==> Sorted(PlainMembers(es).value)
  {
    hide Plain, Put;
    if es != [] && PlainMembers(es).Some? {
      var rest := es[1..];
      PlainSorted(rest);
      PlainMembersAre(rest);
      var ms := PlainMembers(rest).value;
      forall i | 0 <= i < |ms| ensures ms[i].key != es[0].key {
        assert ms[i] in ms;
        var k :| 0 <= k < |rest| && PlainEntry(rest[k]) && ms[i] == MemberOf(rest[k]);
        assert es[k + 1] == rest[k];
      }
      PutSorted(ms, es[0].key, Plain(es[0].val).value);
    }
  }

  lemma {:induction false} PlainWellFormed(v: PyValue)
    requires Holdable(v) && Plain(v).Some?
    ensures WellFormed(Plain(v).value)
    decreases v
  {
    hide Put, CodePoints;
    match v {
      case PyList(items) =>
        PlainItemsAre(items);
        forall k | 0 <= k < |items| ensures WellFormed(Plain(items[k]).value) { PlainWellFormed(items[k]); }
      case PyDict(es) =>
        PlainMembersAre(es);
        PlainSorted(es);
        var ms := PlainMembers(es).value;
        forall i | 0 <= i < |ms| ensures CodePoints(ms[i].key) && WellFormed(ms[i].val) {
          assert ms[i] in ms;
          var k :| 0 <= k < |es| && PlainEntry(es[k]) && ms[i] == MemberOf(es[k]);
          PlainWellFormed(es[k].val);
        }
      case _ =>
    }
  }

  // ---- the guard -----------------------------------------------------------------------------------

  /** The guard refuses a value if it has no JSON value, or as the guard on that JSON value. */
  lemma {:induction false} GuardIsRefuses(v: PyValue, depth: nat)
    ensures GuardRefuses(v, depth) <==> Plain(v).None? || Refuses(Plain(v).value, depth)
    decreases v
  {
    hide Put, HasSurrogate, RefusesKey;
    match v {
      case PyList(items) =>
        PlainItemsAre(items);
        forall k | 0 <= k < |items|
          ensures GuardRefuses(items[k], depth + 1) <==>
            Plain(items[k]).None? || Refuses(Plain(items[k]).value, depth + 1)
        {
          GuardIsRefuses(items[k], depth + 1);
        }
        if Plain(v).Some? {
          var js := PlainItems(items).value;
          assert forall k :: 0 <= k < |items| ==> (Refuses(js[k], depth + 1) <==> GuardRefuses(items[k], depth + 1));
        } else {
          var k :| 0 <= k < |items| && Plain(items[k]).None?;
          assert GuardRefuses(items[k], depth + 1);
        }
      case PyDict(es) =>
        forall k | 0 <= k < |es|
          ensures GuardRefuses(es[k].val, depth + 1) <==>
            Plain(es[k].val).None? || Refuses(Plain(es[k].val).value, depth + 1)
        {
          GuardIsRefuses(es[k].val, depth + 1);
        }
        GuardOnDict(es, depth);
      case _ =>
    }
  }

  lemma GuardOnDict(es: seq<Entry>, depth: nat)
    requires forall k :: 0 <= k < |es| ==>
      (GuardRefuses(es[k].val, depth + 1) <==> Plain(es[k].val).None? || Refuses(Plain(es[k].val).value, depth + 1))
    ensures GuardRefuses(PyDict(es), depth) <==> Plain(PyDict(es)).None? || Refuses(Plain(PyDict(es)).value, depth)
  {
    hide Put, HasSurrogate, RefusesKey, PlainMembers;
    PlainMembersAre(es);
    if PlainMembers(es).None? {
      var k :| 0 <= k < |es| && !PlainEntry(es[k]);
      assert GuardRefusesEntry(es[k], depth);
    } else {
      var ms := PlainMembers(es).value;
      if k :| 0 <= k < |es| && GuardRefusesEntry(es[k], depth) {
        assert PlainEntry(es[k]) && MemberOf(es[k]) in ms;
        var i :| 0 <= i < |ms| && ms[i] == MemberOf(es[k]);
      }
      if i :| 0 <= i < |ms| && (RefusesKey(ms[i].key, depth + 1) || Refuses(ms[i].val, depth + 1)) {
        assert ms[i] in ms;
        var k :| 0 <= k < |es| && PlainEntry(es[k]) && ms[i] == MemberOf(es[k]);
        assert GuardRefusesEntry(es[k], depth);
      }
    }
  }

  /** What `canonical_bytes` accepts, of all a Python caller can hold: values without floats and with string keys
      only, that are of the profile, and whose visited levels stay within the bound. */
  lemma GuardExactly(v: PyValue)
    requires Holdable(v)
    ensures !GuardRefuses(v, 0) <==>
      Plain(v).Some? && Profile(Plain(v).value) && Reach(Plain(v).value) <= MAX_JSON_DEPTH
  {
    hide Profile, Refuses, Reach, GuardRefuses;
    GuardIsRefuses(v, 0);
    if Plain(v).Some? {
      PlainWellFormed(v);
      RefusesExactly(Plain(v).value, 0);
    }
  }

  // ---- floatfree -----------------------------------------------------------------------------------

  /** `floatfree`: every float becomes its text; None where it raises. */
  function Floatfree(v: PyValue): (r: Option<PyValue>)
  {
    match v
    case PyFloat(repr) => if repr.None? then None else Some(PyStr(repr.value))
    case PyList(items) => var r := FloatfreeItems(items); if r.None? then None else Some(PyList(r.value))
    case PyDict(es) => var r := FloatfreeEntries(es); if r.None? then None else Some(PyDict(r.value))
    case _ => Some(v)
  }

  function FloatfreeItems(items: seq<PyValue>): (r: Option<seq<PyValue>>)
  {
    if items == [] then Some([])
    else
      var v, rest := Floatfree(items[0]), FloatfreeItems(items[1..]);
      if v.None? || rest.None? then None else Some([v.value] + rest.value)
  }

  function FloatfreeEntries(es: seq<Entry>): (r: Option<seq<Entry>>)
  {
    if es == [] then Some([])
    else
      match es[0]
      case Unnamed(_) => None
      case Named(key, val) =>
        var v, rest := Floatfree(val), FloatfreeEntries(es[1..]);
        if v.None? || rest.None? then None else Some([Named(key, v.value)] + rest.value)
  }

  /** What comes out has a JSON value, and nothing more to convert. What goes in and already has one comes out
      unchanged. */
  lemma {:induction false} FloatfreeIsPlain(v: PyValue)
    ensures Floatfree(v).Some? ==> Plain(Floatfree(v).value).Some? && Floatfree(Floatfree(v).value) == Floatfree(v)
    ensures Plain(v).Some? ==> Floatfree(v) == Some(v)
    decreases v, 1
  {
    match v {
      case PyList(items) => ItemsArePlain(items);
      case PyDict(es) => EntriesArePlain(es);
      case _ =>
    }
  }

  lemma {:induction false} ItemsArePlain(items: seq<PyValue>)
    ensures FloatfreeItems(items).Some? ==>
      PlainItems(FloatfreeItems(items).value).Some?
        && FloatfreeItems(FloatfreeItems(items).value) == FloatfreeItems(items)
    ensures PlainItems(items).Some? ==> FloatfreeItems(items) == Some(items)
    decreases items, 0
  {
    hide Plain, Floatfree;
    if items != [] {
      FloatfreeIsPlain(items[0]);
      ItemsArePlain(items[1..]);
      assert items == [items[0]] + items[1..];
    }
  }

  lemma {:induction false} EntriesArePlain(es: seq<Entry>)
    ensures FloatfreeEntries(es).Some? ==>
      PlainMembers(FloatfreeEntries(es).value).Some?
        && FloatfreeEntries(FloatfreeEntries(es).value) == FloatfreeEntries(es)
    ensures PlainMembers(es).Some? ==> FloatfreeEntries(es) == Some(es)
    decreases es, 0
  {
    hide Plain, Floatfree, Put;
    if es != [] {
      match es[0] { case Named(_, val) => FloatfreeIsPlain(val); case Unnamed(_) => }
      EntriesArePlain(es[1..]);
      assert es == [es[0]] + es[1..];
    }
  }
}
