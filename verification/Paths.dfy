/**
 Store paths. A string is its UTF-8 bytes, on which both the split at '/' and the ordering of
 strings are defined. Paths are ordered component by component.
 */
module Paths {
  import opened Bytes
  import opened AvlModel
  import opened AvlOrder
  import opened AvlCaches
  import AvlProofs
  import opened Ics23

  type Identifier = Bytes
  type Path = seq<Identifier>

  const SLASH: byte := 47

  // ---------- parsing and printing ----------

  function Split(s: Bytes): (p: Path)
    ensures p != []
  {
    if s == [] then [[]]
    else
      var rest := Split(s[1..]);
      if s[0] == SLASH then [[]] + rest else [[s[0]] + rest[0]] + rest[1..]
  }

  function Join(p: Path): Bytes {
    if p == [] then []
    else if |p| == 1 then p[0]
    else p[0] + [SLASH] + Join(p[1..])
  }

  predicate Clean(p: Path) {
    forall id :: id in p ==> SLASH !in id
  }

  lemma {:induction false} SplitStep(id: Bytes, s: Bytes)
    requires SLASH !in id
    ensures Split(id) == [id]
    ensures Split(id + [SLASH] + s) == [id] + Split(s)
  {
    if id == [] {
      assert [] + [SLASH] + s == [SLASH] + s;
      assert ([SLASH] + s)[1..] == s;
    } else {
      SplitStep(id[1..], s);
      assert (id + [SLASH] + s)[1..] == id[1..] + [SLASH] + s;
      assert [id[0]] + id[1..] == id;
    }
  }

  lemma SplitClean(s: Bytes)
    ensures Clean(Split(s))
  {
    if s != [] {
      SplitClean(s[1..]);
      var rest := Split(s[1..]);
      forall id | id in Split(s) ensures SLASH !in id {
        if s[0] != SLASH { assert rest[0] in rest; }
      }
    }
  }

  lemma JoinCons(id: Identifier, p: Path)
    requires p != []
    ensures Join([id] + p) == id + [SLASH] + Join(p)
  {
    assert ([id] + p)[1..] == p;
  }

  /** Bytes put before the first component are printed before the path. */
  lemma JoinPrepend(c: Bytes, id: Identifier, rest: Path)
    ensures Join([c + id] + rest) == c + Join([id] + rest)
  {
    if rest == [] {
      assert [c + id] + rest == [c + id] && [id] + rest == [id];
    } else {
      JoinCons(c + id, rest);
      JoinCons(id, rest);
      assert (c + id) + [SLASH] + Join(rest) == c + (id + [SLASH] + Join(rest));
    }
  }

  lemma SplitHead(c: byte, s: Bytes)
    ensures Split([c] + s) == if c == SLASH then [[]] + Split(s) else [[c] + Split(s)[0]] + Split(s)[1..]
  {
    assert ([c] + s)[1..] == s;
  }

  /** Printing a parsed path gives the string back. */
  lemma {:induction false} JoinUndoesSplit(s: Bytes)
    ensures Join(Split(s)) == s
  {
    if s != [] {
      JoinUndoesSplit(s[1..]);
      var p := Split(s[1..]);
      assert s == [s[0]] + s[1..];
      SplitHead(s[0], s[1..]);
      if s[0] == SLASH {
        JoinCons([], p);
        assert [] + [SLASH] + Join(p) == [SLASH] + Join(p);
      } else {
        JoinPrepend([s[0]], p[0], p[1..]);
        assert [p[0]] + p[1..] == p;
      }
    }
  }

  /** Parsing a printed path gives the path back, for any path of '/'-free components. */
  lemma {:induction false} SplitUndoesJoin(p: Path)
    requires p != [] && Clean(p)
    ensures Split(Join(p)) == p
  {
    if |p| == 1 {
      SplitStep(p[0], []);
    } else {
      SplitUndoesJoin(p[1..]);
      SplitStep(p[0], Join(p[1..]));
    }
  }

  /** So two different paths never print to the same store key. */
  lemma JoinInjective(p: Path, q: Path)
    requires p != [] && q != [] && Clean(p) && Clean(q) && Join(p) == Join(q)
    ensures p == q
  {
    SplitUndoesJoin(p);
    SplitUndoesJoin(q);
  }

  lemma {:induction false} SplitPrefix(s: Bytes, part: Bytes, rest: Bytes)
    requires SLASH !in part
    ensures rest == [] ==> Split(part + rest) == [part]
    ensures rest != [] && rest[0] == SLASH ==> Split(part + rest) == [part] + Split(rest[1..])
  {
    SplitStep(part, if rest == [] then [] else rest[1..]);
    if rest == [] {
      assert part + rest == part;
    } else if rest[0] == SLASH {
      assert part + rest == part + [SLASH] + rest[1..];
    }
  }

  /** `Path::from`: one pass over the string, closing a part at every '/'. */
  method FromString(s: Bytes) returns (identifiers: Path)
    ensures identifiers == Split(s)
    ensures Clean(identifiers) && Join(identifiers) == s
  {
    identifiers := [];
    var part: Bytes := [];
    assert part + s[0..] == s;
    for i := 0 to |s|
      invariant SLASH !in part
      invariant Split(s) == identifiers + Split(part + s[i..])
    {
      SplitPrefix(s, part, s[i..]);
      if s[i] == SLASH {
        assert s[i..][1..] == s[i + 1..] == [] + s[i + 1..];
        identifiers := identifiers + [part];
        part := [];
      } else {
        assert part + s[i..] == (part + [s[i]]) + s[i + 1..];
        part := part + [s[i]];
      }
    }
    SplitPrefix(s, part, []);
    identifiers := identifiers + [part];
    SplitClean(s);
    JoinUndoesSplit(s);
  }

  // ---------- the two orders ----------

  predicate PathLess(a: Path, b: Path) {
    b != [] && (a == [] || BytesLess(a[0], b[0]) || (a[0] == b[0] && PathLess(a[1..], b[1..])))
  }

  const PATH_KEYS: KeyOps<Path> := KeyOps(PathLess, Join)

  lemma {:induction false} BytesLessOrder(a: Bytes, b: Bytes, c: Bytes)
    ensures !BytesLess(a, a)
    ensures BytesLess(a, b) && BytesLess(b, c) ==> BytesLess(a, c)
    ensures BytesLess(a, b) || BytesLess(b, a) || a == b
    ensures !(BytesLess(a, b) && BytesLess(b, a))
  {
    if a != [] && b != [] {
      BytesLessOrder(a[1..], b[1..], if c == [] then [] else c[1..]);
      assert a[0] == b[0] && a[1..] == b[1..] ==> [a[0]] + a[1..] == [b[0]] + b[1..];
      assert a == [a[0]] + a[1..] && b == [b[0]] + b[1..];
    } else if a != [] {
      BytesLessOrder(a[1..], [], []);
    }
  }

  lemma {:induction false} PathLessOrder(a: Path, b: Path, c: Path)
    ensures !PathLess(a, a)
    ensures PathLess(a, b) && PathLess(b, c) ==> PathLess(a, c)
    ensures PathLess(a, b) || PathLess(b, a) || a == b
  {
    if a != [] { BytesLessOrder(a[0], a[0], a[0]); }
    if a != [] && b != [] {
      PathLessOrder(a[1..], b[1..], if c == [] then [] else c[1..]);
      BytesLessOrder(a[0], b[0], if c == [] then [] else c[0]);
      assert a == [a[0]] + a[1..] && b == [b[0]] + b[1..];
    } else if a != [] {
      PathLessOrder(a[1..], [], []);
    }
  }

  /** Component order is a total order, so it can order a tree. */
  lemma PathKeysOrdered()
    ensures TotalOrder(PATH_KEYS)
  {
    forall a, b, c
      ensures !PathLess(a, a)
      ensures PathLess(a, b) && PathLess(b, c) ==> PathLess(a, c)
      ensures PathLess(a, b) || PathLess(b, a) || a == b
    {
      PathLessOrder(a, b, c);
    }
  }

  // ---------- where they part ----------

  /** One component is a proper prefix of the other and is followed by a further component, while
      the longer one goes on with a byte below '/'. */
  predicate Overtaken(short: Path, long: Path)
    requires short != [] && long != []
  {
    && |short[0]| < |long[0]| && short[0] <= long[0]
    && |short| > 1 && long[0][|short[0]|] < SLASH
  }

  /** The first components in which the paths differ are so. */
  predicate Clash(a: Path, b: Path) {
    && a != [] && b != []
    && if a[0] == b[0] then Clash(a[1..], b[1..]) else Overtaken(a, b) || Overtaken(b, a)
  }

  lemma {:induction false} BytesLessAfter(prefix: Bytes, x: Bytes, y: Bytes)
    ensures BytesLess(prefix + x, prefix + y) <==> BytesLess(x, y)
  {
    if prefix == [] {
      assert prefix + x == x && prefix + y == y;
    } else {
      BytesLessAfter(prefix[1..], x, y);
      assert (prefix + x)[1..] == prefix[1..] + x && (prefix + y)[1..] == prefix[1..] + y;
    }
  }

  /** Strings that differ within their common length compare as they do, whatever follows. */
  lemma {:induction false} BytesLessBefore(a: Bytes, b: Bytes, x: Bytes, y: Bytes)
    requires !(a <= b) && !(b <= a)
    ensures BytesLess(a + x, b + y) <==> BytesLess(a, b)
  {
    assert (a + x)[0] == a[0] && (b + y)[0] == b[0];
    if a[0] == b[0] {
      assert (a + x)[1..] == a[1..] + x && (b + y)[1..] == b[1..] + y;
      assert a[1..] <= b[1..] ==> a <= b by { assert a == [a[0]] + a[1..] && b == [b[0]] + b[1..]; }
      assert b[1..] <= a[1..] ==> b <= a by { assert a == [a[0]] + a[1..] && b == [b[0]] + b[1..]; }
      BytesLessBefore(a[1..], b[1..], x, y);
    }
  }

  /** What a path prints after its first component. */
  function Tail(p: Path): Bytes
    requires p != []
  {
    if |p| == 1 then [] else [SLASH] + Join(p[1..])
  }

  lemma JoinTail(p: Path)
    requires p != []
    ensures Join(p) == p[0] + Tail(p)
  {
    if |p| > 1 { assert p[0] + [SLASH] + Join(p[1..]) == p[0] + ([SLASH] + Join(p[1..])); }
  }

  lemma ProperPrefix(a: Bytes, b: Bytes)
    requires a <= b && a != b
    ensures |a| < |b|
  {
    assert b == a + b[|a|..];
  }

  lemma PrefixOrder(short: Path, long: Path)
    requires short != [] && long != [] && Clean(long)
    requires |short[0]| < |long[0]| && short[0] <= long[0]
    ensures BytesLess(short[0], long[0]) && !BytesLess(long[0], short[0])
    ensures BytesLess(Join(short), Join(long)) <==> !Overtaken(short, long)
    ensures BytesLess(Join(long), Join(short)) <==> Overtaken(short, long)
  {
    var s, l := short[0], long[0];
    var more := l[|s|..];
    assert l == s + more && s + [] == s;
    BytesLessAfter(s, [], more);
    BytesLessAfter(s, more, []);
    JoinTail(short);
    JoinTail(long);
    assert Join(long) == s + (more + Tail(long));
    BytesLessAfter(s, Tail(short), more + Tail(long));
    BytesLessAfter(s, more + Tail(long), Tail(short));
    assert (more + Tail(long))[0] == l[|s|] && l[|s|] in l && l in long;
  }

  /** Component order and the byte order of the printed paths agree on two paths exactly when the
      paths do not clash. */
  lemma {:induction false} OrdersAgreeUnlessClash(a: Path, b: Path)
    requires a != [] && b != [] && Clean(a) && Clean(b)
    ensures (PathLess(a, b) <==> BytesLess(Join(a), Join(b))) <==> !Clash(a, b)
  {
    BytesLessOrder(a[0], b[0], a[0]);
    JoinTail(a);
    JoinTail(b);
    if a[0] == b[0] {
      BytesLessAfter(a[0], Tail(a), Tail(b));
      BytesLessOrder(a[0], a[0], a[0]);
      if |a| > 1 && |b| > 1 {
        OrdersAgreeUnlessClash(a[1..], b[1..]);
        BytesLessAfter([SLASH], Join(a[1..]), Join(b[1..]));
      }
    } else if a[0] <= b[0] {
      ProperPrefix(a[0], b[0]);
      PrefixOrder(a, b);
    } else if b[0] <= a[0] {
      ProperPrefix(b[0], a[0]);
      PrefixOrder(b, a);
    } else {
      BytesLessBefore(a[0], b[0], Tail(a), Tail(b));
    }
  }

  /** In particular they agree on paths all of whose bytes lie above '/'. */
  lemma {:induction false} NoClashAboveSlash(a: Path, b: Path)
    requires forall id, c :: id in a && c in id ==> SLASH < c
    requires forall id, c :: id in b && c in id ==> SLASH < c
    ensures !Clash(a, b)
  {
    if a != [] && b != [] {
      NoClashAboveSlash(a[1..], b[1..]);
      assert a[0] in a && b[0] in b;
      assert |a[0]| < |b[0]| ==> b[0][|a[0]|] in b[0];
      assert |b[0]| < |a[0]| ==> a[0][|b[0]|] in a[0];
    }
  }

  /** Over paths, then, the verifier accepts the proof of an absent key exactly when the tree has
      a key at all, and each neighbour can be proved and does not clash with the key. */
  lemma AbsenceVerifiesIffNoClash(t: Tree<Path>, key: Path)
    requires WellFormed(PATH_KEYS, t) && key !in Contents(t)
    requires key != [] && Clean(key) && forall k :: k in Contents(t) ==> k != [] && Clean(k)
    ensures AvlProofs.GetProof(PATH_KEYS, t, key).Nonexist?
    ensures var b, a := AvlProofs.Before(PATH_KEYS, t, key), AvlProofs.After(PATH_KEYS, t, key);
      VerifyNonExistence(AvlProofs.PROOF_SPEC, ChildHash(t), AvlProofs.GetProof(PATH_KEYS, t, key).nonexist, Join(key)) <==>
        && t.Node?
        && (b.Some? ==> AvlProofs.Provable(PATH_KEYS, t, b.value) && !Clash(b.value, key))
        && (a.Some? ==> AvlProofs.Provable(PATH_KEYS, t, a.value) && !Clash(key, a.value))
  {
    PathKeysOrdered();
    var b, a := AvlProofs.Before(PATH_KEYS, t, key), AvlProofs.After(PATH_KEYS, t, key);
    AvlProofs.NonMembershipVerifies(PATH_KEYS, t, key);
    AvlProofs.BeforeIsPredecessor(PATH_KEYS, t, key, None, None);
    AvlProofs.AfterIsSuccessor(PATH_KEYS, t, key, None, None);
    if b.Some? { OrdersAgreeUnlessClash(b.value, key); }
    if a.Some? { OrdersAgreeUnlessClash(key, a.value); }
  }

  /** A store holding "a/b" alone, which it can prove: its proof that "a-b" is absent names "a/b"
      as the neighbour on the left, which byte order puts on the right, so a verifier refuses it. */
  lemma HyphenRefused() returns (t: Tree<Path>, key: Path)
    ensures WellFormed(PATH_KEYS, t) && key !in Contents(t) && Clean(key)
    ensures t.Node? && t.key == [[97], [98]] && key == [[97, 45, 98]]
    ensures Join(t.key) == [97, 47, 98] && Join(key) == [97, 45, 98]
    ensures Clean(t.key) && Contents(t).Keys == {t.key} && AvlProofs.Provable(PATH_KEYS, t, t.key)
    ensures GetsRefused(t, key)
  {
    var a, b, hyphen: byte := 97, 98, 45;
    var value: Bytes := [hyphen];
    t, key := NewNode(PATH_KEYS, [[a], [b]], value), [[a, hyphen, b]];
    NewNodeWellFormed(PATH_KEYS, t.key, value);
    PathKeysOrdered();
    assert Contents(t) == map[t.key := value];
    assert Join(t.key) == [a, SLASH, b] && Join(key) == [a, hyphen, b];
    HyphenOrder(a, b, hyphen);
    assert AvlProofs.Before(PATH_KEYS, t, key) == Some(t.key);
    AvlProofs.NonMembershipVerifies(PATH_KEYS, t, key);
  }

  lemma HyphenOrder(a: byte, b: byte, hyphen: byte)
    requires hyphen < SLASH
    ensures PathLess([[a], [b]], [[a, hyphen, b]]) && !PathLess([[a, hyphen, b]], [[a], [b]])
    ensures !BytesLess([a, SLASH, b], [a, hyphen, b])
  {
    assert [a, hyphen, b][1..] == [hyphen, b] && [a][1..] == [];
    assert [a, SLASH, b][1..] == [SLASH, b];
    assert BytesLess([a], [a, hyphen, b]) && !BytesLess([a, hyphen, b], [a]);
  }

  predicate GetsRefused(t: Tree<Path>, key: Path)
  {
    match AvlProofs.GetProof(PATH_KEYS, t, key)
    case Nonexist(p) => !VerifyNonExistence(AvlProofs.PROOF_SPEC, ChildHash(t), p, Join(key))
    case Exist(_) => false
  }
}
