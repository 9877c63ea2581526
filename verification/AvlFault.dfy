/**
 A run of eleven insertions and one removal after which the tree is not balanced, and one of
 insertions of eighteen keys and three operations after which a factor is 3. Keys and values are
 single bytes, as in the source's own tests.
 */
module AvlFault {
  import opened Bytes
  import opened AvlModel
  import opened AvlOrder
  import opened AvlCaches
  import opened AvlBalance
  import opened AvlReach

  const BYTE_KEYS: KeyOps<byte> := KeyOps((a: byte, b: byte) => a < b, (k: byte) => [k])

  function Inserts(keys: seq<byte>): seq<TreeOp<byte>> {
    if keys == [] then []
    else Inserts(keys[..|keys| - 1]) + [InsertOp(keys[|keys| - 1], [keys[|keys| - 1]])]
  }

  /** The tree that inserting the keys in order gives. */
  ghost function Grown(keys: seq<byte>): Tree<byte> {
    RunTree(BYTE_KEYS, Inserts(keys)).0
  }

  /** A node with right caches. */
  function Make(key: byte, left: Tree<byte>, right: Tree<byte>): (t: Tree<byte>)
    ensures t.Node?
  {
    Update(Node(key, [key], LocalHash(BYTE_KEYS, key, [key]), EMPTY_CHILD, 0, left, right))
  }

  lemma GrowMore(keys: seq<byte>, k: byte)
    ensures HeightsOk(Grown(keys))
    ensures Grown(keys + [k]) == Insert(BYTE_KEYS, Grown(keys), k, [k])
  {
    assert (keys + [k])[..|keys + [k]| - 1] == keys;
    RunTreeMore(BYTE_KEYS, Inserts(keys), InsertOp(k, [k]));
  }

  lemma MakeHeights(x: byte, l: Tree<byte>, r: Tree<byte>)
    requires HeightsOk(l) && HeightsOk(r)
    ensures HeightsOk(Make(x, l, r)) && Make(x, l, r).height == HeightAbove(l, r)
  {
  }

  /** An insertion into a node's left subtree that leaves the node within 1 changes that alone. */
  lemma InsertLeft(x: byte, l: Tree<byte>, r: Tree<byte>, k: byte, l': Tree<byte>)
    requires HeightsOk(l) && HeightsOk(r) && k < x
    requires l' == Insert(BYTE_KEYS, l, k, [k]) && Abs(HeightOf(l') - HeightOf(r)) <= 1
    ensures HeightsOk(Make(x, l, r)) && Insert(BYTE_KEYS, Make(x, l, r), k, [k]) == Make(x, l', r)
  {
    var t := Make(x, l, r);
    assert BYTE_KEYS.less(k, t.key);
    assert Update(t.(left := l')) == Make(x, l', r);
    assert BalanceFactor(Make(x, l', r)) == HeightOf(l') - HeightOf(r);
  }

  lemma InsertRight(x: byte, l: Tree<byte>, r: Tree<byte>, k: byte, r': Tree<byte>)
    requires HeightsOk(l) && HeightsOk(r) && x < k
    requires r' == Insert(BYTE_KEYS, r, k, [k]) && Abs(HeightOf(l) - HeightOf(r')) <= 1
    ensures HeightsOk(Make(x, l, r)) && Insert(BYTE_KEYS, Make(x, l, r), k, [k]) == Make(x, l, r')
  {
    var t := Make(x, l, r);
    assert BYTE_KEYS.less(t.key, k) && !BYTE_KEYS.less(k, t.key);
    assert Update(t.(right := r')) == Make(x, l, r');
    assert BalanceFactor(Make(x, l, r')) == HeightOf(l) - HeightOf(r');
  }

  // ---------- the eleven insertions ----------

  function One(k: byte): Tree<byte> {
    Make(k, Empty, Empty)
  }

  /** Two nodes in a chain to the left, or to the right. */
  function Two(x: byte, y: byte): Tree<byte> {
    if y < x then Make(x, One(y), Empty) else Make(x, Empty, One(y))
  }

  /** Three nodes in a chain, which counts as balanced. */
  function Three(x: byte, y: byte, z: byte): Tree<byte> {
    if y < x then Make(x, Two(y, z), Empty) else Make(x, Empty, Two(y, z))
  }

  lemma GrowChain(x: byte, y: byte, z: byte)
    requires z < y < x || x < y < z
    ensures HeightsOk(One(x)) && HeightsOk(Two(x, y)) && HeightsOk(Three(x, y, z))
    ensures One(x).height == 0 && Two(x, y).height == 1 && Three(x, y, z).height == 2
    ensures Insert(BYTE_KEYS, Empty, x, [x]) == One(x)
    ensures Insert(BYTE_KEYS, One(x), y, [y]) == Two(x, y)
    ensures Insert(BYTE_KEYS, Two(x, y), z, [z]) == Three(x, y, z)
  {
    MakeHeights(x, Empty, Empty);
    MakeHeights(y, Empty, Empty);
    MakeHeights(z, Empty, Empty);
    if y < x {
      MakeHeights(y, One(z), Empty);
      MakeHeights(x, One(y), Empty);
      MakeHeights(x, Two(y, z), Empty);
      InsertLeft(y, Empty, Empty, z, One(z));
      InsertLeft(x, Empty, Empty, y, One(y));
      InsertLeft(x, One(y), Empty, z, Two(y, z));
    } else {
      MakeHeights(y, Empty, One(z));
      MakeHeights(x, Empty, One(y));
      MakeHeights(x, Empty, Two(y, z));
      InsertRight(y, Empty, Empty, z, One(z));
      InsertRight(x, Empty, Empty, y, One(y));
      InsertRight(x, Empty, One(y), z, Two(y, z));
    }
  }

  /** The tree grown from the keys has this root and these subtrees. */
  ghost predicate GrownTo(keys: seq<byte>, x: byte, l: Tree<byte>, r: Tree<byte>) {
    Grown(keys) == Make(x, l, r) && HeightsOk(l) && HeightsOk(r)
  }

  lemma OnLeft(keys: seq<byte>, x: byte, l: Tree<byte>, r: Tree<byte>, k: byte, l': Tree<byte>)
    requires GrownTo(keys, x, l, r) && k < x
    requires l' == Insert(BYTE_KEYS, l, k, [k]) && Abs(HeightOf(l') - HeightOf(r)) <= 1
    ensures GrownTo(keys + [k], x, l', r)
  {
    GrowMore(keys, k);
    InsertLeft(x, l, r, k, l');
  }

  lemma OnRight(keys: seq<byte>, x: byte, l: Tree<byte>, r: Tree<byte>, k: byte, r': Tree<byte>)
    requires GrownTo(keys, x, l, r) && x < k
    requires r' == Insert(BYTE_KEYS, r, k, [k]) && Abs(HeightOf(l) - HeightOf(r')) <= 1
    ensures GrownTo(keys + [k], x, l, r')
  {
    GrowMore(keys, k);
    InsertRight(x, l, r, k, r');
  }

  /** Eleven keys in increasing order. */
  predicate Eleven(x: seq<byte>) {
    |x| == 11 && forall i, j :: 0 <= i < j < 11 ==> x[i] < x[j]
  }

  lemma GrowOne(x: byte)
    ensures GrownTo([] + [x], x, Empty, Empty)
  {
    GrowMore([], x);
    assert Inserts([]) == [];
  }

  /** The keys in an order of insertion that never rotates. */
  function Order(x: seq<byte>): seq<byte>
    requires Eleven(x)
  {
    OrderFive(x) + [x[8]] + [x[0]] + [x[5]] + [x[9]] + [x[4]] + [x[10]]
  }

  function OrderFive(x: seq<byte>): seq<byte>
    requires Eleven(x)
  {
    [] + [x[3]] + [x[2]] + [x[7]] + [x[1]] + [x[6]]
  }

  lemma GrowFive(x: seq<byte>)
    requires Eleven(x)
    ensures GrownTo(OrderFive(x), x[3], Two(x[2], x[1]), Two(x[7], x[6]))
  {
    var one, two := [] + [x[3]], [] + [x[3]] + [x[2]];
    GrowChain(x[2], x[1], x[0]);
    GrowChain(x[7], x[6], x[5]);
    GrowOne(x[3]);
    OnLeft(one, x[3], Empty, Empty, x[2], One(x[2]));
    OnRight(two, x[3], One(x[2]), Empty, x[7], One(x[7]));
    OnLeft(two + [x[7]], x[3], One(x[2]), One(x[7]), x[1], Two(x[2], x[1]));
    OnRight(two + [x[7]] + [x[1]], x[3], Two(x[2], x[1]), One(x[7]), x[6], Two(x[7], x[6]));
  }

  /** How the right subtree grows from two nodes to seven, without a rotation. */
  lemma GrowSeven(x: seq<byte>)
    requires Eleven(x)
    ensures var a, b, c, d := Make(x[7], One(x[6]), One(x[8])), Make(x[7], Two(x[6], x[5]), One(x[8])),
        Make(x[7], Two(x[6], x[5]), Two(x[8], x[9])), Make(x[7], Three(x[6], x[5], x[4]), Two(x[8], x[9]));
      && HeightsOk(a) && HeightsOk(b) && HeightsOk(c) && HeightsOk(d)
      && a.height == 1 && b.height == 2 && c.height == 2 && d.height == 3
      && a == Insert(BYTE_KEYS, Two(x[7], x[6]), x[8], [x[8]])
      && b == Insert(BYTE_KEYS, a, x[5], [x[5]])
      && c == Insert(BYTE_KEYS, b, x[9], [x[9]])
      && d == Insert(BYTE_KEYS, c, x[4], [x[4]])
  {
    var one, two, three := One(x[6]), Two(x[6], x[5]), Three(x[6], x[5], x[4]);
    var uno, due := One(x[8]), Two(x[8], x[9]);
    GrowChain(x[6], x[5], x[4]);
    GrowChain(x[8], x[9], x[10]);
    MakeHeights(x[7], one, uno);
    MakeHeights(x[7], two, uno);
    MakeHeights(x[7], two, due);
    MakeHeights(x[7], three, due);
    InsertRight(x[7], one, Empty, x[8], uno);
    InsertLeft(x[7], one, uno, x[5], two);
    InsertRight(x[7], two, uno, x[9], due);
    InsertLeft(x[7], two, due, x[4], three);
  }

  /** The last of the eleven, and the whole right subtree. */
  lemma GrowLast(x: seq<byte>)
    requires Eleven(x)
    ensures var d, e := Make(x[7], Three(x[6], x[5], x[4]), Two(x[8], x[9])), Make(x[7], Three(x[6], x[5], x[4]), Three(x[8], x[9], x[10]));
      HeightsOk(d) && HeightsOk(e) && e.height == 3 && e == Insert(BYTE_KEYS, d, x[10], [x[10]])
  {
    GrowChain(x[6], x[5], x[4]);
    GrowChain(x[8], x[9], x[10]);
    MakeHeights(x[7], Three(x[6], x[5], x[4]), Two(x[8], x[9]));
    MakeHeights(x[7], Three(x[6], x[5], x[4]), Three(x[8], x[9], x[10]));
    InsertRight(x[7], Three(x[6], x[5], x[4]), Two(x[8], x[9]), x[10], Three(x[8], x[9], x[10]));
  }

  lemma GrowEleven(x: seq<byte>)
    requires Eleven(x)
    ensures GrownTo(Order(x), x[3], Three(x[2], x[1], x[0]), Make(x[7], Three(x[6], x[5], x[4]), Three(x[8], x[9], x[10])))
  {
    var l, l', keys := Two(x[2], x[1]), Three(x[2], x[1], x[0]), OrderFive(x);
    var r, a, b := Two(x[7], x[6]), Make(x[7], One(x[6]), One(x[8])), Make(x[7], Two(x[6], x[5]), One(x[8]));
    var c, d := Make(x[7], Two(x[6], x[5]), Two(x[8], x[9])), Make(x[7], Three(x[6], x[5], x[4]), Two(x[8], x[9]));
    var e := Make(x[7], Three(x[6], x[5], x[4]), Three(x[8], x[9], x[10]));
    GrowFive(x);
    GrowChain(x[2], x[1], x[0]);
    GrowSeven(x);
    GrowLast(x);
    OnRight(keys, x[3], l, r, x[8], a);
    OnLeft(keys + [x[8]], x[3], l, a, x[0], l');
    OnRight(keys + [x[8]] + [x[0]], x[3], l', a, x[5], b);
    OnRight(keys + [x[8]] + [x[0]] + [x[5]], x[3], l', b, x[9], c);
    OnRight(keys + [x[8]] + [x[0]] + [x[5]] + [x[9]], x[3], l', c, x[4], d);
    OnRight(keys + [x[8]] + [x[0]] + [x[5]] + [x[9]] + [x[4]], x[3], l', d, x[10], e);
  }

  // ---------- the removal ----------

  lemma ChainBalanced(x: byte, y: byte, z: byte)
    requires z < y < x || x < y < z
    ensures Balanced(Three(x, y, z)) && BalanceFactor(Three(x, y, z)) == if y < x then 1 else -1
  {
    GrowChain(x, y, z);
    assert Balanced(One(z));
    assert Balanced(Two(y, z));
  }

  /** Removing the least key from a chain of three lowers it. */
  lemma ChainLowers(x: byte, y: byte, z: byte)
    requires z < y < x
    ensures RemovalLowers(BYTE_KEYS, Three(x, y, z), z)
  {
    assert Childless(One(z)) && Holds(BYTE_KEYS, One(z), z);
    assert RemovalLowers(BYTE_KEYS, Two(y, z), z);
    GrowChain(x, y, z);
  }

  lemma RightSide(x: seq<byte>)
    requires Eleven(x)
    ensures var e := Make(x[7], Three(x[6], x[5], x[4]), Three(x[8], x[9], x[10]));
      Balanced(e) && BalanceFactor(e) == 0 && BalanceFactor(e.left) == 1
  {
    GrowChain(x[6], x[5], x[4]);
    GrowChain(x[8], x[9], x[10]);
    ChainBalanced(x[6], x[5], x[4]);
    ChainBalanced(x[8], x[9], x[10]);
  }

  /** Any eleven keys, put in in this order, make a tree in which every factor is within 1; taking
      the least of them out again leaves a tree, reachable therefore, in which some factor is not,
      although the root's is. */
  lemma RemoveCanUnbalance(x: seq<byte>)
    requires Eleven(x)
    ensures var ops := Inserts(Order(x));
      var t, r := RunTree(BYTE_KEYS, ops).0, RunTree(BYTE_KEYS, ops + [RemoveOp(x[0])]).0;
      && WellFormed(BYTE_KEYS, t) && Balanced(t)
      && WellFormed(BYTE_KEYS, r) && !Balanced(r) && Contents(r) == Contents(t) - {x[0]}
      && r.Node? && Abs(BalanceFactor(r)) <= 1 && Excess(r) == 1
  {
    var ops := Inserts(Order(x));
    var t, r := RunTree(BYTE_KEYS, ops).0, RunTree(BYTE_KEYS, ops + [RemoveOp(x[0])]).0;
    var l, e := Three(x[2], x[1], x[0]), Make(x[7], Three(x[6], x[5], x[4]), Three(x[8], x[9], x[10]));
    RunIsMap(BYTE_KEYS, ops, x[0]);
    RunTreeMore(BYTE_KEYS, ops, RemoveOp(x[0]));
    RemoveCorrect(BYTE_KEYS, t, x[0]);
    GrowEleven(x);
    GrowLast(x);
    GrowChain(x[2], x[1], x[0]);
    ChainLowers(x[2], x[1], x[0]);
    ChainBalanced(x[2], x[1], x[0]);
    RightSide(x);
    assert t == Make(x[3], l, e);
    assert RemovalUnbalances(BYTE_KEYS, t, x[0]);
    RemoveEffectOnBalance(BYTE_KEYS, t, x[0]);
    BalancedIffNoExcess(r);
  }

  // ---------- a factor of 3 ----------

  lemma RemoveLeft(x: byte, l: Tree<byte>, r: Tree<byte>, k: byte, l': Tree<byte>)
    requires HeightsOk(l) && HeightsOk(r) && k < x
    requires Remove(BYTE_KEYS, l, k).removed.Node? && l' == Remove(BYTE_KEYS, l, k).rest
    ensures HeightsOk(Make(x, l, r)) && HeightsOk(Make(x, l', r)) && Remove(BYTE_KEYS, Make(x, l, r), k).removed.Node?
    ensures Remove(BYTE_KEYS, Make(x, l, r), k).rest == BalanceNode(Make(x, l', r))
  {
    var t := Make(x, l, r);
    assert BYTE_KEYS.less(k, t.key);
    assert Update(t.(left := l')) == Make(x, l', r);
  }

  lemma RemoveRight(x: byte, l: Tree<byte>, r: Tree<byte>, k: byte, r': Tree<byte>)
    requires HeightsOk(l) && HeightsOk(r) && x < k
    requires Remove(BYTE_KEYS, r, k).removed.Node? && r' == Remove(BYTE_KEYS, r, k).rest
    ensures HeightsOk(Make(x, l, r)) && HeightsOk(Make(x, l, r')) && Remove(BYTE_KEYS, Make(x, l, r), k).removed.Node?
    ensures Remove(BYTE_KEYS, Make(x, l, r), k).rest == BalanceNode(Make(x, l, r'))
  {
    var t := Make(x, l, r);
    assert BYTE_KEYS.less(t.key, k) && !BYTE_KEYS.less(k, t.key);
    assert Update(t.(right := r')) == Make(x, l, r');
  }

  lemma Level(x: byte, l: Tree<byte>, r: Tree<byte>)
    requires HeightsOk(l) && HeightsOk(r) && Abs(HeightOf(l) - HeightOf(r)) <= 1
    ensures CanBalance(Make(x, l, r)) && BalanceNode(Make(x, l, r)) == Make(x, l, r)
  {
  }

  lemma Rotations(x: byte, y: byte, a: Tree<byte>, b: Tree<byte>, c: Tree<byte>)
    ensures RotateRight(Make(x, Make(y, a, b), c)) == Make(y, a, Make(x, b, c))
    ensures RotateLeft(Make(x, a, Make(y, b, c))) == Make(y, Make(x, a, b), c)
  {
    var right, left := Make(x, Make(y, a, b), c), Make(x, a, Make(y, b, c));
    assert Update(right.(left := b)) == Make(x, b, c);
    assert Update(left.(right := b)) == Make(x, a, b);
  }

  /** The double rotation over a right child that is level or leans left. */
  lemma DoubleLeft(x: byte, y: byte, z: byte, a: Tree<byte>, b: Tree<byte>, c: Tree<byte>, d: Tree<byte>)
    requires HeightsOk(a) && HeightsOk(b) && HeightsOk(c) && HeightsOk(d)
    requires HeightOf(a) - Make(y, Make(z, b, c), d).height <= -2 && Make(z, b, c).height >= HeightOf(d)
    ensures CanBalance(Make(x, a, Make(y, Make(z, b, c), d)))
    ensures BalanceNode(Make(x, a, Make(y, Make(z, b, c), d))) == Make(z, Make(x, a, b), Make(y, c, d))
  {
    var t := Make(x, a, Make(y, Make(z, b, c), d));
    Rotations(y, z, b, c, d);
    Rotations(x, z, a, b, Make(y, c, d));
    var u := t.(right := Make(z, b, Make(y, c, d)));
    assert RotateLeft(u) == RotateLeft(Make(x, a, Make(z, b, Make(y, c, d))));
  }

  lemma DoubleRight(x: byte, y: byte, z: byte, a: Tree<byte>, b: Tree<byte>, c: Tree<byte>, d: Tree<byte>)
    requires HeightsOk(a) && HeightsOk(b) && HeightsOk(c) && HeightsOk(d)
    requires Make(y, a, Make(z, b, c)).height - HeightOf(d) >= 2 && HeightOf(a) <= Make(z, b, c).height
    ensures CanBalance(Make(x, Make(y, a, Make(z, b, c)), d))
    ensures BalanceNode(Make(x, Make(y, a, Make(z, b, c)), d)) == Make(z, Make(y, a, b), Make(x, c, d))
  {
    var t := Make(x, Make(y, a, Make(z, b, c)), d);
    Rotations(y, z, a, b, c);
    Rotations(x, z, Make(y, a, b), c, d);
    var u := t.(left := Make(z, Make(y, a, b), c));
    assert RotateRight(u) == RotateRight(Make(x, Make(z, Make(y, a, b), c), d));
  }

  /** Removing the end of a chain of three. */
  lemma ShortenChain(x: byte, y: byte, z: byte)
    requires z < y < x
    ensures HeightsOk(Three(x, y, z)) && Remove(BYTE_KEYS, Three(x, y, z), z).removed.Node?
    ensures Remove(BYTE_KEYS, Three(x, y, z), z).rest == Two(x, y)
  {
    GrowChain(x, y, z);
    assert Remove(BYTE_KEYS, One(z), z).rest == Empty && Remove(BYTE_KEYS, One(z), z).removed.Node?;
    RemoveLeft(y, One(z), Empty, z, Empty);
    Level(y, Empty, Empty);
    GrowChain(x, y, z);
    RemoveLeft(x, Two(y, z), Empty, z, One(y));
    Level(x, One(y), Empty);
  }

  /** Eighteen keys in increasing order. */
  predicate Eighteen(x: seq<byte>) {
    |x| == 18 && forall i, j :: 0 <= i < j < 18 ==> x[i] < x[j]
  }

  /** The left part of the tree to begin with, after its least key is removed, and after that key
      is inserted again. */
  function LeftPart(x: seq<byte>): Tree<byte>
    requires Eighteen(x)
  {
    Make(x[3], Three(x[2], x[1], x[0]), Make(x[7], Three(x[6], x[5], x[4]), Three(x[8], x[9], x[10])))
  }

  function Bent(x: seq<byte>, chain: Tree<byte>): Tree<byte>
    requires Eighteen(x)
  {
    Make(x[6], Make(x[3], chain, Two(x[5], x[4])), Make(x[7], Empty, Three(x[8], x[9], x[10])))
  }

  /** The right part, over its leftmost chain. */
  function RightPart(x: seq<byte>, chain: Tree<byte>): Tree<byte>
    requires Eighteen(x)
  {
    Make(x[15], chain, Two(x[16], x[17]))
  }

  lemma PartHeights(x: seq<byte>)
    requires Eighteen(x)
    ensures HeightsOk(LeftPart(x)) && LeftPart(x).height == 4
    ensures var two, three := Two(x[2], x[1]), Three(x[2], x[1], x[0]);
      && HeightsOk(Bent(x, two)) && Bent(x, two).height == 4 && HeightsOk(Bent(x, three)) && Bent(x, three).height == 4
      && HeightsOk(Bent(x, three).left) && Bent(x, three).left.height == 3 && HeightsOk(Bent(x, two).right) && Bent(x, two).right.height == 3
      && HeightsOk(Bent(x, two).left) && Bent(x, two).left.height == 2
  {
    GrowChain(x[2], x[1], x[0]);
    GrowChain(x[6], x[5], x[4]);
    GrowChain(x[5], x[4], x[3]);
    GrowChain(x[8], x[9], x[10]);
    var two, three, five := Two(x[2], x[1]), Three(x[2], x[1], x[0]), Two(x[5], x[4]);
    var end := Three(x[8], x[9], x[10]);
    MakeHeights(x[7], Three(x[6], x[5], x[4]), end);
    MakeHeights(x[3], three, Make(x[7], Three(x[6], x[5], x[4]), end));
    MakeHeights(x[7], Empty, end);
    MakeHeights(x[3], two, five);
    MakeHeights(x[3], three, five);
    MakeHeights(x[6], Make(x[3], two, five), Make(x[7], Empty, end));
    MakeHeights(x[6], Make(x[3], three, five), Make(x[7], Empty, end));
  }

  /** Removing the least key bends the left part. */
  lemma Bends(x: seq<byte>)
    requires Eighteen(x)
    ensures HeightsOk(LeftPart(x)) && Remove(BYTE_KEYS, LeftPart(x), x[0]).removed.Node?
    ensures Remove(BYTE_KEYS, LeftPart(x), x[0]).rest == Bent(x, Two(x[2], x[1]))
  {
    var three, end := Three(x[6], x[5], x[4]), Three(x[8], x[9], x[10]);
    GrowChain(x[2], x[1], x[0]);
    GrowChain(x[6], x[5], x[4]);
    GrowChain(x[5], x[4], x[3]);
    GrowChain(x[8], x[9], x[10]);
    MakeHeights(x[7], three, end);
    ShortenChain(x[2], x[1], x[0]);
    RemoveLeft(x[3], Three(x[2], x[1], x[0]), Make(x[7], three, end), x[0], Two(x[2], x[1]));
    DoubleLeft(x[3], x[7], x[6], Two(x[2], x[1]), Two(x[5], x[4]), Empty, end);
  }

  /** Inserting it again lengthens the chain, and the left part is level. */
  lemma Levels(x: seq<byte>)
    requires Eighteen(x)
    ensures HeightsOk(Bent(x, Two(x[2], x[1])))
    ensures Insert(BYTE_KEYS, Bent(x, Two(x[2], x[1])), x[0], [x[0]]) == Bent(x, Three(x[2], x[1], x[0]))
  {
    PartHeights(x);
    GrowChain(x[2], x[1], x[0]);
    GrowChain(x[5], x[4], x[3]);
    InsertLeft(x[3], Two(x[2], x[1]), Two(x[5], x[4]), x[0], Three(x[2], x[1], x[0]));
    InsertLeft(x[6], Bent(x, Two(x[2], x[1])).left, Bent(x, Two(x[2], x[1])).right, x[0], Bent(x, Three(x[2], x[1], x[0])).left);
  }

  lemma RightHeights(x: seq<byte>)
    requires Eighteen(x)
    ensures HeightsOk(RightPart(x, Three(x[14], x[13], x[12]))) && RightPart(x, Three(x[14], x[13], x[12])).height == 3
    ensures HeightsOk(RightPart(x, Two(x[14], x[13]))) && RightPart(x, Two(x[14], x[13])).height == 2
    ensures Remove(BYTE_KEYS, RightPart(x, Three(x[14], x[13], x[12])), x[12]).removed.Node?
    ensures Remove(BYTE_KEYS, RightPart(x, Three(x[14], x[13], x[12])), x[12]).rest == RightPart(x, Two(x[14], x[13]))
  {
    GrowChain(x[14], x[13], x[12]);
    GrowChain(x[15], x[16], x[17]);
    GrowChain(x[16], x[15], x[14]);
    TwoUp(x[16], x[17]);
    MakeHeights(x[15], Three(x[14], x[13], x[12]), Two(x[16], x[17]));
    MakeHeights(x[15], Two(x[14], x[13]), Two(x[16], x[17]));
    ShortenChain(x[14], x[13], x[12]);
    RemoveLeft(x[15], Three(x[14], x[13], x[12]), Two(x[16], x[17]), x[12], Two(x[14], x[13]));
    Level(x[15], Two(x[14], x[13]), Two(x[16], x[17]));
  }

  lemma TwoUp(x: byte, y: byte)
    requires x < y
    ensures HeightsOk(Two(x, y)) && Two(x, y).height == 1
  {
    MakeHeights(y, Empty, Empty);
    MakeHeights(x, Empty, One(y));
  }

  /** The tree the run starts from, and the one it ends with. */
  function Before18(x: seq<byte>): Tree<byte>
    requires Eighteen(x)
  {
    Make(x[11], LeftPart(x), RightPart(x, Three(x[14], x[13], x[12])))
  }

  function After18(x: seq<byte>): Tree<byte>
    requires Eighteen(x)
  {
    Make(x[7], Make(x[6], Make(x[3], Three(x[2], x[1], x[0]), Two(x[5], x[4])), Empty),
         Make(x[11], Three(x[8], x[9], x[10]), RightPart(x, Two(x[14], x[13]))))
  }

  /** Remove the least key, insert it again, and remove one on the right. */
  lemma ThreeSteps(x: seq<byte>)
    requires Eighteen(x)
    ensures HeightsOk(Before18(x))
    ensures var one := Remove(BYTE_KEYS, Before18(x), x[0]).rest;
      Remove(BYTE_KEYS, Insert(BYTE_KEYS, one, x[0], [x[0]]), x[12]).rest == After18(x)
  {
    var q, q' := RightPart(x, Three(x[14], x[13], x[12])), RightPart(x, Two(x[14], x[13]));
    var two, three := Bent(x, Two(x[2], x[1])), Bent(x, Three(x[2], x[1], x[0]));
    PartHeights(x);
    RightHeights(x);
    MakeHeights(x[11], LeftPart(x), q);
    Bends(x);
    RemoveLeft(x[11], LeftPart(x), q, x[0], two);
    Level(x[11], two, q);
    Levels(x);
    InsertLeft(x[11], two, q, x[0], three);
    RemoveRight(x[11], three, q, x[12], q');
    GrowChain(x[8], x[9], x[10]);
    DoubleRight(x[11], x[6], x[7], three.left, Empty, Three(x[8], x[9], x[10]), q');
  }

  // ---------- the start is a tree insertions make ----------

  lemma MakeFit(x: byte, l: Tree<byte>, r: Tree<byte>, lo: Option<byte>, hi: Option<byte>)
    requires OrderedIn(BYTE_KEYS, l, lo, Some(x)) && OrderedIn(BYTE_KEYS, r, Some(x), hi) && Within(BYTE_KEYS, x, lo, hi)
    requires HashesOk(BYTE_KEYS, l) && HashesOk(BYTE_KEYS, r)
    ensures OrderedIn(BYTE_KEYS, Make(x, l, r), lo, hi) && HashesOk(BYTE_KEYS, Make(x, l, r))
  {
  }

  lemma ChainFit(x: byte, y: byte, z: byte, lo: Option<byte>, hi: Option<byte>)
    requires z < y < x || x < y < z
    requires Within(BYTE_KEYS, x, lo, hi) && Within(BYTE_KEYS, y, lo, hi) && Within(BYTE_KEYS, z, lo, hi)
    ensures OrderedIn(BYTE_KEYS, Two(x, y), lo, hi) && HashesOk(BYTE_KEYS, Two(x, y))
    ensures OrderedIn(BYTE_KEYS, Three(x, y, z), lo, hi) && HashesOk(BYTE_KEYS, Three(x, y, z))
  {
    if y < x {
      MakeFit(z, Empty, Empty, lo, Some(y));
      MakeFit(y, One(z), Empty, lo, Some(x));
      MakeFit(x, Two(y, z), Empty, lo, hi);
      MakeFit(y, Empty, Empty, lo, Some(x));
      MakeFit(x, One(y), Empty, lo, hi);
    } else {
      MakeFit(z, Empty, Empty, Some(y), hi);
      MakeFit(y, Empty, One(z), Some(x), hi);
      MakeFit(x, Empty, Two(y, z), lo, hi);
      MakeFit(y, Empty, Empty, Some(x), hi);
      MakeFit(x, Empty, One(y), lo, hi);
    }
  }

  lemma StartIsFit(x: seq<byte>)
    requires Eighteen(x)
    ensures WellFormed(BYTE_KEYS, Before18(x))
  {
    var l, r := LeftPart(x), RightPart(x, Three(x[14], x[13], x[12]));
    ChainFit(x[2], x[1], x[0], None, Some(x[3]));
    ChainFit(x[6], x[5], x[4], Some(x[3]), Some(x[7]));
    ChainFit(x[8], x[9], x[10], Some(x[7]), Some(x[11]));
    MakeFit(x[7], Three(x[6], x[5], x[4]), Three(x[8], x[9], x[10]), Some(x[3]), Some(x[11]));
    MakeFit(x[3], l.left, l.right, None, Some(x[11]));
    ChainFit(x[14], x[13], x[12], Some(x[11]), Some(x[15]));
    MakeFit(x[17], Empty, Empty, Some(x[16]), None);
    MakeFit(x[16], Empty, One(x[17]), Some(x[15]), None);
    MakeFit(x[15], Three(x[14], x[13], x[12]), Two(x[16], x[17]), Some(x[11]), None);
    MakeFit(x[11], l, r, None, None);
    PartHeights(x);
    RightHeights(x);
    MakeHeights(x[11], l, r);
  }

  lemma StartIsBalanced(x: seq<byte>)
    requires Eighteen(x)
    ensures Balanced(Before18(x))
  {
    PartHeights(x);
    RightHeights(x);
    GrowChain(x[2], x[1], x[0]);
    GrowChain(x[14], x[13], x[12]);
    TwoUp(x[16], x[17]);
    RightSide(x[..11]);
    ChainBalanced(x[2], x[1], x[0]);
    ChainBalanced(x[14], x[13], x[12]);
    assert Balanced(LeftPart(x));
    assert Balanced(One(x[17])) && Balanced(Two(x[16], x[17]));
    assert Balanced(RightPart(x, Three(x[14], x[13], x[12])));
  }

  /** Whichever eighteen keys are used, some insertions, then a removal, an insertion and a removal,
      leave a well-formed tree with a factor of 3 at a node below the root. */
  lemma FactorOfThree(x: seq<byte>) returns (ops: seq<TreeOp<byte>>)
    requires Eighteen(x)
    ensures OnlyInserts(ops)
    ensures var r := RunTree(BYTE_KEYS, ops + [RemoveOp(x[0])] + [InsertOp(x[0], [x[0]])] + [RemoveOp(x[12])]).0;
      WellFormed(BYTE_KEYS, r) && r.Node? && r.left.Node? && BalanceFactor(r.left) == 3
  {
    StartIsFit(x);
    StartIsBalanced(x);
    ops := BalancedIsReached(BYTE_KEYS, Before18(x));
    var first, second := ops + [RemoveOp(x[0])], ops + [RemoveOp(x[0])] + [InsertOp(x[0], [x[0]])];
    RunTreeMore(BYTE_KEYS, ops, RemoveOp(x[0]));
    RunTreeMore(BYTE_KEYS, first, InsertOp(x[0], [x[0]]));
    RunTreeMore(BYTE_KEYS, second, RemoveOp(x[12]));
    ThreeSteps(x);
    RunIsMap(BYTE_KEYS, second + [RemoveOp(x[12])], x[0]);
    GrowChain(x[2], x[1], x[0]);
    GrowChain(x[5], x[4], x[3]);
    MakeHeights(x[3], Three(x[2], x[1], x[0]), Two(x[5], x[4]));
  }
}
