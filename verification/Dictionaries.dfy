/** Dictionaries as `json.loads` builds them and `sort_keys` writes them: distinct keys, in
    code point order, at every level. */
module Dictionaries {
  import opened Wrappers
  import opened Lexicographic
  import opened Json

  predicate Sorted(v: Json)
    decreases v
  {
    match v
    case Arr(items) => SortedItems(items)
    case Obj(members) => SortedMembers(members)
    case _ => true
  }

  lemma AtomsAreValues()
    ensures forall n: int :: Sorted(Int(n))
    ensures forall t: FloatText :: Sorted(Float(t))
  {
  }

  predicate SortedItems(items: Items)
    decreases items
  {
    match items
    case NoItems => true
    case Items(head, tail) => Sorted(head) && SortedItems(tail)
  }

  predicate SortedMembers(members: Members)
    decreases members
  {
    match members
    case NoMembers => true
    case Members(k, v, rest) => Sorted(v) && SortedMembers(rest) && (rest.Members? ==> Before(k, rest.key))
  }

  /** A value with sorted dictionaries, and such a dictionary. */
  type Value = v: Json | Sorted(v) witness Null

  type Dict = members: Members | SortedMembers(members) witness NoMembers

  function Get(members: Dict, key: string): Option<Value>
    decreases members
  {
    match members
    case NoMembers => None
    case Members(k, v, rest) => if k == key then Some(v) else Get(rest, key)
  }

  /** `members[key] = value`. */
  function Put(members: Dict, key: string, value: Value): (r: Dict)
    ensures r.Members? && (r.key == key || (members.Members? && r.key == members.key))
    decreases members
  {
    match members
    case NoMembers => Members(key, value, NoMembers)
    case Members(k, v, rest) =>
      if k == key then Members(key, value, rest)
      else if Before(key, k) then Members(key, value, members)
      else
        BeforeTotal(k, key);
        Members(k, v, Put(rest, key, value))
  }

  function Remove(members: Dict, key: string): (r: Dict)
    ensures members.Members? && r.Members? ==> r.key == members.key || Before(members.key, r.key)
    decreases members
  {
    match members
    case NoMembers => NoMembers
    case Members(k, v, rest) =>
      if k == key then rest
      else
        var r := Remove(rest, key);
        if rest.Members? && r.Members? && r.key != rest.key then
          BeforeTransitive(k, rest.key, r.key);
          Members(k, v, r)
        else Members(k, v, r)
  }

  function Keys(members: Members): set<string>
    decreases members
  {
    match members
    case NoMembers => {}
    case Members(k, _, rest) => {k} + Keys(rest)
  }

  // ----- Reading text

  /** What loading a value makes of its dictionaries: a repeated key has its last value, and
      the order of the keys is forgotten. */
  function Canon(v: Json): Value
    decreases v
  {
    match v
    case Arr(items) => Arr(CanonItems(items))
    case Obj(members) => Obj(CanonMembers(members))
    case _ => v
  }

  function CanonItems(items: Items): (r: Items)
    ensures SortedItems(r)
    decreases items
  {
    match items
    case NoItems => NoItems
    case Items(head, tail) => Items(Canon(head), CanonItems(tail))
  }

  function CanonMembers(members: Members): Dict
    decreases members
  {
    match members
    case NoMembers => NoMembers
    case Members(k, v, rest) =>
      var later := CanonMembers(rest);
      if k in Keys(later) then later else Put(later, k, Canon(v))
  }

  /** `json.loads` on one line. */
  function Loads(line: string): Option<Value> {
    match Decode(line)
    case None => None
    case Some(v) => Some(Canon(v))
  }

  /** Every key of a dictionary comes after what its first key comes after. */
  lemma {:induction false} KeysFollow(members: Dict, k: string)
    requires members.Members? && Before(k, members.key)
    ensures k !in Keys(members)
    decreases members
  {
    BeforeIrreflexive(k);
    if members.rest.Members? {
      BeforeTransitive(k, members.key, members.rest.key);
      KeysFollow(members.rest, k);
    }
  }

  lemma {:induction false} CanonId(v: Value)
    ensures Canon(v) == v
    decreases v
  {
    match v {
      case Arr(items) => CanonItemsId(items);
      case Obj(members) => CanonMembersId(members);
      case _ =>
    }
  }

  lemma {:induction false} CanonItemsId(items: Items)
    requires SortedItems(items)
    ensures CanonItems(items) == items
    decreases items
  {
    if items.Items? {
      CanonId(items.head);
      CanonItemsId(items.tail);
    }
  }

  /** A dictionary is read as itself. */
  lemma {:induction false} CanonMembersId(members: Dict)
    ensures CanonMembers(members) == members
    decreases members
  {
    if members.Members? {
      CanonId(members.value);
      CanonMembersId(members.rest);
      if members.rest.Members? {
        KeysFollow(members.rest, members.key);
        BeforeIrreflexive(members.key);
      }
    }
  }

  lemma {:induction false} PutGet(members: Dict, key: string, value: Value, other: string)
    ensures Get(Put(members, key, value), other) == if other == key then Some(value) else Get(members, other)
  {
    match members {
      case NoMembers =>
      case Members(k, v, rest) => PutGet(rest, key, value, other);
    }
  }

  /** The value a text gives a key: that of the key's last occurrence. */
  function LastValue(members: Members, key: string): Option<Json>
    decreases members
  {
    match members
    case NoMembers => None
    case Members(k, v, rest) =>
      var later := LastValue(rest, key);
      if later.Some? then later else if k == key then Some(v) else None
  }

  /** What the last occurrence of a key loads as. */
  function LoadedValue(members: Members, key: string): Option<Value> {
    match LastValue(members, key)
    case None => None
    case Some(v) => Some(Canon(v))
  }

  lemma {:induction false} GetKeys(members: Dict, key: string)
    ensures Get(members, key).Some? <==> key in Keys(members)
    decreases members
  {
    if members.Members? {
      GetKeys(members.rest, key);
    }
  }

  lemma {:induction false} CanonGet(members: Members, key: string)
    ensures Get(CanonMembers(members), key) == LoadedValue(members, key)
    decreases members
  {
    if members.Members? {
      var later := CanonMembers(members.rest);
      CanonGet(members.rest, key);
      GetKeys(later, members.key);
      CanonGet(members.rest, members.key);
      if members.key !in Keys(later) {
        PutGet(later, members.key, Canon(members.value), key);
      }
    }
  }

  /** Two dictionaries with the same values are the same. */
  lemma {:induction false} SameGets(a: Dict, b: Dict)
    requires forall key :: Get(a, key) == Get(b, key)
    ensures a == b
    decreases a
  {
    if a.Members? && b.Members? {
      FirstKey(a, b);
      forall key ensures Get(a.rest, key) == Get(b.rest, key) {
        RestGet(a, key);
        RestGet(b, key);
        assert Get(a, key) == Get(b, key);
      }
      SameGets(a.rest, b.rest);
      assert Get(a, a.key) == Some(a.value) && Get(b, a.key) == Some(b.value);
    } else {
      assert a.Members? ==> Get(a, a.key) != Get(b, a.key);
      assert b.Members? ==> Get(a, b.key) != Get(b, b.key);
    }
  }

  lemma RestGet(a: Dict, key: string)
    requires a.Members?
    ensures Get(a.rest, key) == if key == a.key then None else Get(a, key)
  {
    GetKeys(a.rest, a.key);
    if a.rest.Members? {
      KeysFollow(a.rest, a.key);
    }
  }

  /** Removing a key leaves the others. */
  lemma {:induction false} RemoveGet(members: Dict, key: string, other: string)
    ensures Get(Remove(members, key), other) == if other == key then None else Get(members, other)
    decreases members
  {
    if members.Members? {
      RestGet(members, other);
      RemoveGet(members.rest, key, other);
    }
  }

  lemma FirstKey(a: Dict, b: Dict)
    requires a.Members? && b.Members? && forall key :: Get(a, key) == Get(b, key)
    ensures a.key == b.key
  {
    GetKeys(a, b.key);
    GetKeys(b, a.key);
    assert Get(a, a.key).Some? && Get(b, b.key).Some?;
    if Before(a.key, b.key) {
      KeysFollow(b, a.key);
    } else if Before(b.key, a.key) {
      KeysFollow(a, b.key);
    } else {
      BeforeTotal(a.key, b.key);
    }
  }

  /** Two objects in a text load as the same dictionary exactly when every key has the same
      last value in both, however the keys are ordered and repeated. */
  lemma SameObject(a: Members, b: Members)
    ensures CanonMembers(a) == CanonMembers(b) <==> forall key :: LoadedValue(a, key) == LoadedValue(b, key)
  {
    forall key ensures Get(CanonMembers(a), key) == LoadedValue(a, key)
      && Get(CanonMembers(b), key) == LoadedValue(b, key) {
      CanonGet(a, key);
      CanonGet(b, key);
    }
    if forall key :: LoadedValue(a, key) == LoadedValue(b, key) {
      SameGets(CanonMembers(a), CanonMembers(b));
    }
  }
}
