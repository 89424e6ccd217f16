/**
 * `THORJSONFlattener` of the legacy package: a breadth-first walk that turns a
 * nested record into a flat dict. Object keys are joined to their parent's
 * path with `_`; the elements of a list get the bijective base-26 letter
 * names A, B, ..., Z, AA, AB, ... of their positions.
 */
module LegacyFlattener {
  import opened Wrappers
  import opened Dicts
  import opened JsonValues

  /** `constants.DELIMITER`. */
  const DELIMITER: string := "_"

  /* ---------- list positions as letters ---------- */

  function LetterChar(d: nat): (c: char)
    requires d < 26
    ensures 'A' <= c <= 'Z'
  {
    (65 + d) as char
  }

  /** The bijective base-26 numeral of `n` over the digits A (1) .. Z (26). */
  function Bijective26(n: nat): (s: string)
    ensures n > 0 <==> s != []
    ensures forall k | 0 <= k < |s| :: 'A' <= s[k] <= 'Z'
  {
    if n == 0 then "" else Bijective26((n - 1) / 26) + [LetterChar((n - 1) % 26)]
  }

  /** The value of a numeral over A (1) .. Z (26). */
  function FromBijective26(s: string): nat
    requires forall k | 0 <= k < |s| :: 'A' <= s[k] <= 'Z'
  {
    if s == [] then 0
    else 26 * FromBijective26(s[..|s| - 1]) + (s[|s| - 1] as int - 'A' as int + 1)
  }

  /** The name `_index_to_letter` gives position `i` of a list. */
  function Letters(i: nat): (s: string)
    ensures s != []
    ensures forall k | 0 <= k < |s| :: 'A' <= s[k] <= 'Z'
  {
    Bijective26(i + 1)
  }

  /** `_index_to_letter`: the `divmod` loop builds the numeral from its last letter. */
  method IndexToLetter(index: int) returns (result: string)
    ensures index >= 0 ==> result == Letters(index)
    ensures index < 0 ==> result == ""
  {
    result := "";
    var n := index + 1;
    while n > 0
      invariant index >= -1 ==> 0 <= n && Bijective26(index + 1) == Bijective26(n) + result
      invariant index < -1 ==> result == ""
      decreases n
    {
      var q, remainder := (n - 1) / 26, (n - 1) % 26;
      assert Bijective26(n) == Bijective26(q) + [LetterChar(remainder)];
      n := q;
      result := [LetterChar(remainder)] + result;
    }
  }

  /** Decoding undoes the encoding ... */
  lemma {:induction false} FromToBijective26(n: nat)
    ensures FromBijective26(Bijective26(n)) == n
  {
    if n > 0 {
      var s := Bijective26(n);
      assert s[..|s| - 1] == Bijective26((n - 1) / 26);
      FromToBijective26((n - 1) / 26);
    }
  }

  /** ... and every numeral is the encoding of its value, so the encoding is onto. */
  lemma {:induction false} ToFromBijective26(s: string)
    requires forall k | 0 <= k < |s| :: 'A' <= s[k] <= 'Z'
    ensures Bijective26(FromBijective26(s)) == s
  {
    if s != [] {
      var init := s[..|s| - 1];
      var d := s[|s| - 1] as int - 'A' as int;
      var n := FromBijective26(s);
      assert (n - 1) / 26 == FromBijective26(init) && (n - 1) % 26 == d;
      ToFromBijective26(init);
      assert s == init + [s[|s| - 1]];
    }
  }

  /** Distinct list positions get distinct names. */
  lemma LettersInjective(i: nat, j: nat)
    requires Letters(i) == Letters(j)
    ensures i == j
  {
    Bijective26Injective(i + 1, j + 1);
  }

  lemma Bijective26Injective(m: nat, n: nat)
    requires Bijective26(m) == Bijective26(n)
    ensures m == n
  {
    FromToBijective26(m);
    FromToBijective26(n);
  }

  /** The first names: 0 is A, 25 is Z, 26 is AA, 27 is AB. */
  lemma LettersExamples()
    ensures Letters(0) == "A" && Letters(25) == "Z"
    ensures Letters(26) == "AA" && Letters(27) == "AB"
  {
    assert Bijective26(1) == "A";
    assert Bijective26(27) == Bijective26(1) + "A";
    assert Bijective26(28) == Bijective26(1) + "B";
  }

  /* ---------- the breadth-first walk ---------- */

  /** A queue entry: a value still to visit and the key path that leads to it. */
  type Entry = (Json, string)

  /** The key of child `key` under `path`; a top-level key keeps its bare name. */
  function ChildKey(path: string, key: string): string
  {
    if path != "" then path + DELIMITER + key else key
  }

  function FieldChildren(fields: Dict<Json>, path: string): (q: seq<Entry>)
    ensures |q| == |fields|
  {
    seq(|fields|, i requires 0 <= i < |fields| => (fields[i].1, ChildKey(path, fields[i].0)))
  }

  /** The entries of list elements `start`, `start + 1`, ... under `path`. */
  function ItemChildren(items: seq<Json>, path: string, start: nat): (q: seq<Entry>)
    ensures |q| == |items|
  {
    seq(|items|, i requires 0 <= i < |items| => (items[i], path + DELIMITER + Letters(start + i)))
  }

  /** What the walk enqueues when it dequeues `j`. */
  function Children(j: Json, path: string): seq<Entry>
  {
    match j
    case JObj(fields) => FieldChildren(fields, path)
    case JArr(items) => ItemChildren(items, path, 0)
    case _ => []
  }

  function Size(j: Json): nat
    decreases j, 1
  {
    match j
    case JArr(items) => 1 + ItemsSize(items)
    case JObj(fields) => 1 + FieldsSize(fields)
    case _ => 1
  }

  function ItemsSize(items: seq<Json>): nat
    decreases items, 0
  {
    if items == [] then 0 else Size(items[0]) + ItemsSize(items[1..])
  }

  function FieldsSize(fields: Dict<Json>): nat
    decreases fields, 0
  {
    if fields == [] then 0
    else
      assert fields[0].1 < fields[0];
      Size(fields[0].1) + FieldsSize(fields[1..])
  }

  /** The number of values the walk still has to visit. */
  function QSize(q: seq<Entry>): nat
  {
    if q == [] then 0 else Size(q[0].0) + QSize(q[1..])
  }

  lemma {:induction false} QSizeAppend(a: seq<Entry>, b: seq<Entry>)
    ensures QSize(a + b) == QSize(a) + QSize(b)
  {
    if a == [] {
      assert a + b == b;
    } else {
      assert (a + b)[1..] == a[1..] + b;
      QSizeAppend(a[1..], b);
    }
  }

  lemma {:induction false} FieldChildrenSize(fields: Dict<Json>, path: string)
    ensures QSize(FieldChildren(fields, path)) == FieldsSize(fields)
  {
    if fields != [] {
      assert FieldChildren(fields, path)[1..] == FieldChildren(fields[1..], path);
      FieldChildrenSize(fields[1..], path);
    }
  }

  lemma {:induction false} ItemChildrenSize(items: seq<Json>, path: string, start: nat)
    ensures QSize(ItemChildren(items, path, start)) == ItemsSize(items)
  {
    if items != [] {
      assert ItemChildren(items, path, start)[1..] == ItemChildren(items[1..], path, start + 1);
      ItemChildrenSize(items[1..], path, start + 1);
    }
  }

  /** Replacing a dequeued container by its children shrinks the queue's size by one. */
  lemma ExpandSize(q: seq<Entry>)
    requires q != [] && IsContainer(q[0].0)
    ensures QSize(q[1..] + Children(q[0].0, q[0].1)) == QSize(q) - 1
  {
    QSizeAppend(q[1..], Children(q[0].0, q[0].1));
    match q[0].0
    case JObj(fields) => FieldChildrenSize(fields, q[0].1);
    case JArr(items) => ItemChildrenSize(items, q[0].1, 0);
  }

  /**
   * The assignments `flattened[key_path] = current` of the walk, in the order
   * it makes them: entries are dequeued from the front and a container's
   * children are enqueued at the back.
   */
  function BfsOrder(q: seq<Entry>): seq<(string, Json)>
    decreases QSize(q)
  {
    if q == [] then []
    else if IsContainer(q[0].0) then
      ExpandSize(q);
      BfsOrder(q[1..] + Children(q[0].0, q[0].1))
    else [(q[0].1, q[0].0)] + BfsOrder(q[1..])
  }

  /** `flatten_jsonl`: `None` gives `{}`; otherwise every assignment of the walk, later ones winning. */
  function Flatten(j: Json): Dict<Json>
  {
    if j == JNull then [] else Update([], BfsOrder([(j, "")]))
  }

  /** One dequeue step of the walk. */
  lemma BfsStep(q: seq<Entry>)
    requires q != []
    ensures IsContainer(q[0].0) ==> BfsOrder(q) == BfsOrder(q[1..] + Children(q[0].0, q[0].1))
    ensures !IsContainer(q[0].0) ==> BfsOrder(q) == [(q[0].1, q[0].0)] + BfsOrder(q[1..])
  {
  }

  /** Enqueueing the entries of a dict: `for key, value in current.items()`. */
  method EnqueueFields(queue: seq<Entry>, fields: Dict<Json>, keyPath: string) returns (q: seq<Entry>)
    ensures q == queue + FieldChildren(fields, keyPath)
  {
    q := queue;
    var i := 0;
    while i < |fields|
      invariant 0 <= i <= |fields|
      invariant q == queue + FieldChildren(fields, keyPath)[..i]
    {
      var key, value := fields[i].0, fields[i].1;
      var newKey := if keyPath != "" then keyPath + DELIMITER + key else key;
      q := q + [(value, newKey)];
      i := i + 1;
    }
    assert FieldChildren(fields, keyPath)[..i] == FieldChildren(fields, keyPath);
  }

  /** Enqueueing the elements of a list: `for index, item in enumerate(current)`. */
  method EnqueueItems(queue: seq<Entry>, items: seq<Json>, keyPath: string) returns (q: seq<Entry>)
    ensures q == queue + ItemChildren(items, keyPath, 0)
  {
    q := queue;
    var i := 0;
    while i < |items|
      invariant 0 <= i <= |items|
      invariant q == queue + ItemChildren(items, keyPath, 0)[..i]
    {
      var alphaIndex := IndexToLetter(i);
      var newKey := keyPath + DELIMITER + alphaIndex;
      q := q + [(items[i], newKey)];
      i := i + 1;
    }
    assert ItemChildren(items, keyPath, 0)[..i] == ItemChildren(items, keyPath, 0);
  }

  /** `flatten_jsonl`, with its `deque` as a sequence popped at the front. */
  method FlattenJsonl(jsonLine: Json) returns (flattened: Dict<Json>)
    ensures flattened == Flatten(jsonLine)
  {
    if jsonLine == JNull {
      return [];
    }
    flattened := [];
    var queue: seq<Entry> := [(jsonLine, "")];
    while queue != []
      invariant Update(flattened, BfsOrder(queue)) == Flatten(jsonLine)
      decreases QSize(queue)
    {
      var current, keyPath := queue[0].0, queue[0].1;
      ghost var before := queue;
      BfsStep(before);
      if current.JObj? {
        ExpandSize(before);
        queue := EnqueueFields(queue[1..], current.fields, keyPath);
      } else if current.JArr? {
        ExpandSize(before);
        queue := EnqueueItems(queue[1..], current.items, keyPath);
      } else {
        queue := queue[1..];
        UpdateStep(flattened, BfsOrder(before));
        assert BfsOrder(before)[1..] == BfsOrder(queue);
        flattened := Set(flattened, keyPath, current);
      }
    }
  }

  /* ---------- a depth-first reference ---------- */

  /** The (path, leaf) pairs of `j` found under `path`, depth first. */
  function Leaves(j: Json, path: string): seq<(string, Json)>
    decreases j, 1
  {
    match j
    case JObj(fields) => FieldLeaves(fields, path)
    case JArr(items) => ItemLeaves(items, path, 0)
    case _ => [(path, j)]
  }

  function FieldLeaves(fields: Dict<Json>, path: string): seq<(string, Json)>
    decreases fields, 0
  {
    if fields == [] then []
    else
      assert fields[0].1 < fields[0];
      Leaves(fields[0].1, ChildKey(path, fields[0].0)) + FieldLeaves(fields[1..], path)
  }

  function ItemLeaves(items: seq<Json>, path: string, start: nat): seq<(string, Json)>
    decreases items, 0
  {
    if items == [] then []
    else Leaves(items[0], path + DELIMITER + Letters(start)) + ItemLeaves(items[1..], path, start + 1)
  }

  function QLeaves(q: seq<Entry>): seq<(string, Json)>
  {
    if q == [] then [] else Leaves(q[0].0, q[0].1) + QLeaves(q[1..])
  }

  lemma {:induction false} QLeavesAppend(a: seq<Entry>, b: seq<Entry>)
    ensures QLeaves(a + b) == QLeaves(a) + QLeaves(b)
  {
    if a == [] {
      assert a + b == b;
    } else {
      assert (a + b)[1..] == a[1..] + b;
      QLeavesAppend(a[1..], b);
    }
  }

  lemma {:induction false} FieldChildrenLeaves(fields: Dict<Json>, path: string)
    ensures QLeaves(FieldChildren(fields, path)) == FieldLeaves(fields, path)
  {
    if fields != [] {
      assert FieldChildren(fields, path)[1..] == FieldChildren(fields[1..], path);
      FieldChildrenLeaves(fields[1..], path);
    }
  }

  lemma {:induction false} ItemChildrenLeaves(items: seq<Json>, path: string, start: nat)
    ensures QLeaves(ItemChildren(items, path, start)) == ItemLeaves(items, path, start)
  {
    if items != [] {
      assert ItemChildren(items, path, start)[1..] == ItemChildren(items[1..], path, start + 1);
      ItemChildrenLeaves(items[1..], path, start + 1);
    }
  }

  /** The breadth-first walk assigns exactly the depth-first leaves, only in another order. */
  lemma {:induction false} BfsIsPermutationOfLeaves(q: seq<Entry>)
    ensures multiset(BfsOrder(q)) == multiset(QLeaves(q))
    decreases QSize(q)
  {
    if q != [] {
      var j, p := q[0].0, q[0].1;
      if IsContainer(j) {
        ExpandSize(q);
        BfsIsPermutationOfLeaves(q[1..] + Children(j, p));
        QLeavesAppend(q[1..], Children(j, p));
        match j
        case JObj(fields) => FieldChildrenLeaves(fields, p);
        case JArr(items) => ItemChildrenLeaves(items, p, 0);
      } else {
        BfsIsPermutationOfLeaves(q[1..]);
      }
    }
  }

  /** Every assignment of the walk stores a value that is neither a dict nor a list. */
  lemma {:induction false} BfsStoresScalars(q: seq<Entry>)
    ensures forall e | e in BfsOrder(q) :: !IsContainer(e.1)
    decreases QSize(q)
  {
    if q != [] {
      if IsContainer(q[0].0) {
        ExpandSize(q);
        BfsStoresScalars(q[1..] + Children(q[0].0, q[0].1));
      } else {
        BfsStoresScalars(q[1..]);
      }
    }
  }

  /* ---------- properties of flatten_jsonl ---------- */

  /** `None` flattens to the empty dict. */
  lemma FlattenNone()
    ensures Flatten(JNull) == []
  {
  }

  /** The result is a dict, and each key holds the value of the last walk step that assigned it. */
  lemma FlattenLastWins(j: Json, k: string)
    requires j != JNull
    ensures DistinctKeys(Flatten(j))
    ensures Get(Flatten(j), k) == GetLast(BfsOrder([(j, "")]), k)
  {
    UpdateDistinct([], BfsOrder([(j, "")]));
  }

  /**
   * Soundness: every entry of the result is a leaf of the input (not a dict,
   * not a list) stored unchanged under its path.
   */
  lemma FlattenSound(j: Json, k: string, v: Json)
    requires (k, v) in Flatten(j)
    ensures (k, v) in Leaves(j, "")
    ensures !IsContainer(v)
  {
    var order := BfsOrder([(j, "")]);
    FlattenLastWins(j, k);
    GetDistinct(Flatten(j), k, v);
    assert GetLast(order, k) == Some(v);
    GetLastStored(order, k);
    BfsStoresScalars([(j, "")]);
    BfsIsPermutationOfLeaves([(j, "")]);
    QLeavesOne(j, "");
    assert (k, v) in multiset(order);
  }

  lemma QLeavesOne(j: Json, p: string)
    ensures QLeaves([(j, p)]) == Leaves(j, p)
  {
    assert [(j, p)][1..] == [];
    assert Leaves(j, p) + [] == Leaves(j, p);
  }

  /** Completeness: every leaf path of a non-`None` input is a key of the result. */
  lemma FlattenComplete(j: Json, k: string, v: Json)
    requires j != JNull
    requires (k, v) in Leaves(j, "")
    ensures k in Keys(Flatten(j))
  {
    var order := BfsOrder([(j, "")]);
    BfsIsPermutationOfLeaves([(j, "")]);
    QLeavesOne(j, "");
    assert (k, v) in multiset(order);
    var i :| 0 <= i < |order| && order[i] == (k, v);
    assert Keys(order)[i] == k;
  }

  /** A queue of scalars is assigned as it stands. */
  lemma {:induction false} BfsOfScalars(q: seq<Entry>)
    requires forall i | 0 <= i < |q| :: !IsContainer(q[i].0)
    ensures BfsOrder(q) == seq(|q|, i requires 0 <= i < |q| => (q[i].1, q[i].0))
  {
    if q != [] {
      BfsOfScalars(q[1..]);
    }
  }

  /** A dict whose values are all scalars flattens to itself. */
  lemma FlattenFlatIdentity(fields: Dict<Json>)
    requires DistinctKeys(fields)
    requires forall i | 0 <= i < |fields| :: !IsContainer(fields[i].1)
    ensures Flatten(JObj(fields)) == fields
  {
    var q := FieldChildren(fields, "");
    assert [(JObj(fields), "")][1..] + q == q;
    BfsOfScalars(q);
    assert BfsOrder([(JObj(fields), "")]) == fields;
    assert [] + fields == fields;
    UpdateAppend([], fields);
  }

  /** A nested dict of scalars under a non-empty key `k` gives keys `k + "_" + child`. */
  lemma FlattenNestedKeys(k: string, inner: Dict<Json>)
    requires k != ""
    requires DistinctKeys(inner)
    requires forall i | 0 <= i < |inner| :: !IsContainer(inner[i].1)
    ensures Flatten(JObj([(k, JObj(inner))])) == seq(|inner|, i requires 0 <= i < |inner| => (k + "_" + inner[i].0, inner[i].1))
  {
    var top := [(JObj([(k, JObj(inner))]), "")];
    var level1 := FieldChildren([(k, JObj(inner))], "");
    assert top[1..] + level1 == [(JObj(inner), k)];
    var q := FieldChildren(inner, k);
    assert [(JObj(inner), k)][1..] + q == q;
    BfsOfScalars(q);
    var r := seq(|inner|, i requires 0 <= i < |inner| => (k + "_" + inner[i].0, inner[i].1));
    assert BfsOrder(top) == r;
    assert Keys(r) == seq(|inner|, i requires 0 <= i < |inner| => k + "_" + Keys(inner)[i]);
    PrefixKeepsDistinct(k + "_", Keys(inner));
    assert [] + r == r;
    UpdateAppend([], r);
  }

  lemma PrefixKeepsDistinct(p: string, ks: seq<string>)
    requires NoDuplicates(ks)
    ensures NoDuplicates(seq(|ks|, i requires 0 <= i < |ks| => p + ks[i]))
  {
    var ps := seq(|ks|, i requires 0 <= i < |ks| => p + ks[i]);
    NoDuplicatesIndices(ks);
    forall i, j | 0 <= i < j < |ps|
      ensures ps[i] != ps[j]
    {
      assert ps[i][|p|..] == ks[i] && ps[j][|p|..] == ks[j];
    }
    DistinctIndicesNoDuplicates(ps);
  }

  /** The elements of a scalar list under key `k` get keys `k + "_" + letter(i)`. */
  lemma FlattenListKeys(k: string, items: seq<Json>)
    requires k != ""
    requires forall i | 0 <= i < |items| :: !IsContainer(items[i])
    ensures Flatten(JObj([(k, JArr(items))])) == seq(|items|, i requires 0 <= i < |items| => (k + "_" + Letters(i), items[i]))
  {
    var top := [(JObj([(k, JArr(items))]), "")];
    var level1 := FieldChildren([(k, JArr(items))], "");
    assert top[1..] + level1 == [(JArr(items), k)];
    var q := ItemChildren(items, k, 0);
    assert [(JArr(items), k)][1..] + q == q;
    BfsOfScalars(q);
    var r := seq(|items|, i requires 0 <= i < |items| => (k + "_" + Letters(i), items[i]));
    assert BfsOrder(top) == r;
    LetterKeysDistinct(k, |items|);
    assert Keys(r) == seq(|items|, i requires 0 <= i < |items| => k + "_" + Letters(i));
    assert [] + r == r;
    UpdateAppend([], r);
  }

  lemma LetterKeysDistinct(k: string, n: nat)
    ensures NoDuplicates(seq(n, i requires 0 <= i < n => k + "_" + Letters(i)))
  {
    var ks := seq(n, i requires 0 <= i < n => k + "_" + Letters(i));
    forall i, j | 0 <= i < j < n
      ensures ks[i] != ks[j]
    {
      if ks[i] == ks[j] {
        assert ks[i][|k| + 1..] == Letters(i) && ks[j][|k| + 1..] == Letters(j);
        LettersInjective(i, j);
      }
    }
    DistinctIndicesNoDuplicates(ks);
  }

  /** An empty dict or list anywhere in the queue contributes no assignment. */
  lemma {:induction false} EmptyContainersVanish(a: seq<Entry>, e: Entry, b: seq<Entry>)
    requires e.0 == JObj([]) || e.0 == JArr([])
    ensures BfsOrder(a + [e] + b) == BfsOrder(a + b)
    decreases QSize(a + b)
  {
    if a == [] {
      assert Children(e.0, e.1) == [];
      assert ([e] + b)[1..] + [] == b;
      assert a + [e] + b == [e] + b && a + b == b;
    } else {
      var q := a + [e] + b;
      assert q[0] == a[0];
      if IsContainer(a[0].0) {
        var ch := Children(a[0].0, a[0].1);
        assert q[1..] + ch == a[1..] + [e] + (b + ch);
        assert (a + b)[1..] + ch == a[1..] + (b + ch);
        ExpandSize(a + b);
        EmptyContainersVanish(a[1..], e, b + ch);
      } else {
        assert q[1..] == a[1..] + [e] + b;
        assert (a + b)[1..] == a[1..] + b;
        QSizeAppend(a, b);
        QSizeAppend(a[1..], b);
        EmptyContainersVanish(a[1..], e, b);
      }
    }
  }

  /** On a key collision the later leaf wins: `{"a_b": 1, "a": {"b": 2}}` flattens to `{"a_b": 2}`. */
  lemma CollisionExample()
    ensures Flatten(JObj([("a_b", JInt(1)), ("a", JObj([("b", JInt(2))]))])) == [("a_b", JInt(2))]
  {
    var j := JObj([("a_b", JInt(1)), ("a", JObj([("b", JInt(2))]))]);
    var q0 := [(j, "")];
    var q1 := [(JInt(1), "a_b"), (JObj([("b", JInt(2))]), "a")];
    assert q0[1..] + Children(j, "") == q1;
    var q2 := [(JObj([("b", JInt(2))]), "a")];
    assert q1[1..] == q2;
    var q3 := [(JInt(2), "a_b")];
    assert ChildKey("a", "b") == "a_b";
    assert FieldChildren([("b", JInt(2))], "a")[0] == q3[0];
    assert FieldChildren([("b", JInt(2))], "a") == q3;
    assert q2[1..] == [];
    assert q2[1..] + Children(q2[0].0, "a") == q3;
    assert BfsOrder(q3) == [("a_b", JInt(2))];
    assert BfsOrder(q0) == [("a_b", JInt(1)), ("a_b", JInt(2))];
  }
}
