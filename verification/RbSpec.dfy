/** The red-black trees of src/tree.h as values: a tree, a tree with a hole (the path above a node),
    and what it means for the node fields to hold them. */
module RbSpec {
  import Arith

  datatype Side = L | R

  function Other(d: Side): Side {
    if d == L then R else L
  }

  /** A node is a number, and 0 is `NULL`. */
  datatype Tree = Leaf | Node(id: nat, red: bool, left: Tree, right: Tree)

  /** The path from a hole up to the root: the hole is the child on `side` of `id`. */
  datatype Path = Top | In(side: Side, id: nat, red: bool, sib: Tree, up: Path)

  /** `RB_ENTRY` */
  datatype Cell = Cell(left: nat, right: nat, parent: nat, red: bool)

  type Mem = map<nat, Cell>

  function Mk(d: Side, id: nat, red: bool, near: Tree, far: Tree): Tree {
    if d == L then Node(id, red, near, far) else Node(id, red, far, near)
  }

  function Near(d: Side, t: Tree): Tree
    requires t.Node?
  {
    if d == L then t.left else t.right
  }

  function MkCell(d: Side, near: nat, far: nat, parent: nat, red: bool): Cell {
    if d == L then Cell(near, far, parent, red) else Cell(far, near, parent, red)
  }

  function Plug(c: Path, t: Tree): Tree {
    if c.Top? then t else Plug(c.up, Mk(c.side, c.id, c.red, t, c.sib))
  }

  /** One path continued by another. */
  function Compose(c: Path, base: Path): Path {
    if c.Top? then base else c.(up := Compose(c.up, base))
  }

  function Depth(c: Path): nat {
    if c.Top? then 0 else 1 + Depth(c.up)
  }

  function Ptr(t: Tree): nat {
    if t.Leaf? then 0 else t.id
  }

  function PathPtr(c: Path): nat {
    if c.Top? then 0 else c.id
  }

  predicate Red(t: Tree) {
    t.Node? && t.red
  }

  function Blacken(t: Tree): Tree {
    if t.Leaf? then t else t.(red := false)
  }

  /* ---------- Order ---------- */

  ghost function Ids(t: Tree): set<nat> {
    if t.Leaf? then {} else Ids(t.left) + {t.id} + Ids(t.right)
  }

  ghost function PathIds(c: Path): set<nat> {
    if c.Top? then {} else {c.id} + Ids(c.sib) + PathIds(c.up)
  }

  ghost predicate Below(key: nat -> int, ids: set<nat>, k: int) {
    forall i :: i in ids ==> key(i) < k
  }

  ghost predicate Above(key: nat -> int, ids: set<nat>, k: int) {
    forall i :: i in ids ==> k < key(i)
  }

  /** A search tree: keys grow from left to right. */
  ghost predicate Ordered(key: nat -> int, t: Tree) {
    t.Node? ==>
      && Ordered(key, t.left) && Ordered(key, t.right)
      && Below(key, Ids(t.left), key(t.id)) && Above(key, Ids(t.right), key(t.id))
  }

  /** No two nodes of a search tree have the same key. */
  lemma {:induction false} KeysDiffer(key: nat -> int, t: Tree, i: nat, j: nat)
    requires Ordered(key, t) && i in Ids(t) && j in Ids(t) && key(i) == key(j)
    ensures i == j
  {
    if i in Ids(t.left) && j in Ids(t.left) {
      KeysDiffer(key, t.left, i, j);
    } else if i in Ids(t.right) && j in Ids(t.right) {
      KeysDiffer(key, t.right, i, j);
    }
  }

  /** The order depends only on the keys of the nodes in the tree. */
  lemma {:induction false} OrderedSame(key: nat -> int, key': nat -> int, t: Tree)
    requires Ordered(key, t) && forall i :: i in Ids(t) ==> key'(i) == key(i)
    ensures Ordered(key', t)
  {
    if t.Leaf? {
    } else {
      OrderedSame(key, key', t.left);
      OrderedSame(key, key', t.right);
    }
  }

  /** The key `k` may stand in the hole. */
  ghost predicate Admits(key: nat -> int, c: Path, k: int) {
    c.In? ==>
      && Admits(key, c.up, k)
      && (if c.side == L then k < key(c.id) else key(c.id) < k)
  }

  /** The path is ordered, whatever admissible nodes go into the hole. */
  ghost predicate OrderedPath(key: nat -> int, c: Path) {
    c.In? ==>
      && OrderedPath(key, c.up) && Ordered(key, c.sib) && Admits(key, c.up, key(c.id))
      && (forall i :: i in Ids(c.sib) ==> Admits(key, c.up, key(i)))
      && (if c.side == L then Above(key, Ids(c.sib), key(c.id)) else Below(key, Ids(c.sib), key(c.id)))
  }

  ghost predicate Placed(key: nat -> int, c: Path, t: Tree) {
    OrderedPath(key, c) && Ordered(key, t) && forall i :: i in Ids(t) ==> Admits(key, c, key(i))
  }

  lemma PlacedUp(key: nat -> int, c: Path, t: Tree)
    requires c.In?
    ensures Placed(key, c, t) <==> Placed(key, c.up, Mk(c.side, c.id, c.red, t, c.sib))
  {
  }

  lemma PlacedAgain(key: nat -> int, c: Path, t: Tree, t': Tree)
    requires Placed(key, c, t) && Ordered(key, t') && Ids(t') <= Ids(t)
    ensures Placed(key, c, t')
  {
  }

  lemma {:induction false} KeyNotOnPath(key: nat -> int, c: Path, k: int)
    requires OrderedPath(key, c) && Admits(key, c, k)
    ensures forall i :: i in PathIds(c) ==> key(i) != k
  {
    if c.Top? {
    } else {
      KeyNotOnPath(key, c.up, k);
    }
  }

  lemma NotOnPath(key: nat -> int, c: Path, i: nat)
    requires OrderedPath(key, c) && Admits(key, c, key(i))
    ensures i !in PathIds(c)
  {
  }

  lemma {:induction false} PlugIds(c: Path, t: Tree)
    ensures Ids(Plug(c, t)) == Ids(t) + PathIds(c)
  {
    if c.Top? {
    } else {
      PlugIds(c.up, Mk(c.side, c.id, c.red, t, c.sib));
    }
  }

  lemma {:induction false} ComposeIds(c: Path, base: Path)
    ensures PathIds(Compose(c, base)) == PathIds(c) + PathIds(base)
  {
    if c.Top? {
    } else {
      ComposeIds(c.up, base);
    }
  }

  predicate AllLeft(c: Path) {
    c.In? ==> c.side == L && AllLeft(c.up)
  }

  /** Down the left edge, everything on the path is greater than what is in the hole. */
  lemma {:induction false} LeftEdge(key: nat -> int, c: Path, base: Path, k: int)
    requires AllLeft(c) && OrderedPath(key, Compose(c, base)) && Admits(key, Compose(c, base), k)
    ensures Above(key, PathIds(c), k) && Admits(key, base, k)
  {
    if c.Top? {
    } else {
      LeftEdge(key, c.up, base, k);
    }
  }

  /* ---------- Node fields ---------- */

  /** The fields of the nodes of `t` hold `t`, hanging from `parent`. */
  ghost predicate Holds(mem: Mem, t: Tree, parent: nat) {
    t.Node? ==>
      && t.id != 0 && t.id in mem && mem[t.id] == Cell(Ptr(t.left), Ptr(t.right), parent, t.red)
      && Holds(mem, t.left, t.id) && Holds(mem, t.right, t.id)
  }

  /** Children and parents point at each other. */
  lemma {:induction false} LinksAgree(mem: Mem, t: Tree, parent: nat, i: nat)
    requires Holds(mem, t, parent) && i in Ids(t)
    ensures i in mem && (mem[i].parent == parent || mem[i].parent in Ids(t))
    ensures mem[i].left != 0 ==> mem[i].left in Ids(t) && mem[i].left in mem && mem[mem[i].left].parent == i
    ensures mem[i].right != 0 ==> mem[i].right in Ids(t) && mem[i].right in mem && mem[mem[i].right].parent == i
  {
    if i in Ids(t.left) {
      LinksAgree(mem, t.left, t.id, i);
    } else if i in Ids(t.right) {
      LinksAgree(mem, t.right, t.id, i);
    }
  }

  lemma MkHolds(mem: Mem, d: Side, id: nat, red: bool, near: Tree, far: Tree, parent: nat)
    ensures Holds(mem, Mk(d, id, red, near, far), parent) <==>
            && id != 0 && id in mem && mem[id] == MkCell(d, Ptr(near), Ptr(far), parent, red)
            && Holds(mem, near, id) && Holds(mem, far, id)
  {
  }

  /** The fields of the nodes on the path hold the path, with node `n` in the hole. */
  ghost predicate HoldsPath(mem: Mem, root: nat, c: Path, n: nat) {
    if c.Top? then root == n
    else
      && c.id != 0 && c.id in mem && mem[c.id] == MkCell(c.side, n, Ptr(c.sib), PathPtr(c.up), c.red)
      && Holds(mem, c.sib, c.id) && HoldsPath(mem, root, c.up, c.id)
  }

  /** The memory holds `t` in the hole of `c`, and the whole is a search tree. */
  ghost predicate At(key: nat -> int, mem: Mem, root: nat, c: Path, t: Tree) {
    Holds(mem, t, PathPtr(c)) && HoldsPath(mem, root, c, Ptr(t)) && Placed(key, c, t)
  }

  /** The same memory, looked at from the node above. */
  lemma AtUp(key: nat -> int, mem: Mem, root: nat, c: Path, t: Tree)
    requires c.In?
    ensures At(key, mem, root, c, t) <==> At(key, mem, root, c.up, Mk(c.side, c.id, c.red, t, c.sib))
  {
    PlacedUp(key, c, t);
  }

  lemma {:induction false} AtCompose(key: nat -> int, mem: Mem, root: nat, c: Path, base: Path, t: Tree)
    ensures At(key, mem, root, Compose(c, base), t) <==> At(key, mem, root, base, Plug(c, t))
  {
    if c.Top? {
    } else {
      AtUp(key, mem, root, Compose(c, base), t);
      AtCompose(key, mem, root, c.up, base, Mk(c.side, c.id, c.red, t, c.sib));
    }
  }

  lemma {:induction false} ComposeTop(c: Path)
    ensures Compose(c, Top) == c
  {
    if c.Top? {
    } else {
      ComposeTop(c.up);
    }
  }

  lemma AtTop(key: nat -> int, mem: Mem, root: nat, c: Path, t: Tree)
    ensures At(key, mem, root, c, t) <==> At(key, mem, root, Top, Plug(c, t))
  {
    ComposeTop(c);
    AtCompose(key, mem, root, c, Top, t);
  }

  ghost predicate Same(mem: Mem, mem': Mem, ids: set<nat>) {
    forall i :: i in ids && i in mem ==> i in mem' && mem'[i] == mem[i]
  }

  lemma {:induction false} HoldsStill(mem: Mem, mem': Mem, t: Tree, parent: nat)
    requires Holds(mem, t, parent) && Same(mem, mem', Ids(t))
    ensures Holds(mem', t, parent)
  {
    if t.Leaf? {
    } else {
      HoldsStill(mem, mem', t.left, t.id);
      HoldsStill(mem, mem', t.right, t.id);
    }
  }

  lemma {:induction false} HoldsPathStill(mem: Mem, mem': Mem, root: nat, c: Path, n: nat)
    requires HoldsPath(mem, root, c, n) && Same(mem, mem', PathIds(c))
    ensures HoldsPath(mem', root, c, n)
  {
    if c.Top? {
    } else {
      HoldsStill(mem, mem', c.sib, c.id);
      HoldsPathStill(mem, mem', root, c.up, c.id);
    }
  }

  lemma {:induction false} HoldsIds(mem: Mem, t: Tree, parent: nat)
    requires Holds(mem, t, parent)
    ensures 0 !in Ids(t) && forall i :: i in Ids(t) ==> i in mem
  {
    if t.Leaf? {
    } else {
      HoldsIds(mem, t.left, t.id);
      HoldsIds(mem, t.right, t.id);
    }
  }

  lemma {:induction false} HoldsPathIds(mem: Mem, root: nat, c: Path, n: nat)
    requires HoldsPath(mem, root, c, n)
    ensures 0 !in PathIds(c) && forall i :: i in PathIds(c) ==> i in mem
  {
    if c.Top? {
    } else {
      HoldsIds(mem, c.sib, c.id);
      HoldsPathIds(mem, root, c.up, c.id);
    }
  }

  /** The link to the hole now leads to `n'` instead of `n`; nothing else on the path changed. */
  ghost predicate Relinked(mem: Mem, root: nat, mem': Mem, root': nat, c: Path, n': nat) {
    if c.Top? then root' == n'
    else
      && root' == root && c.id in mem'
      && mem'[c.id] == MkCell(c.side, n', Ptr(c.sib), PathPtr(c.up), c.red)
      && Same(mem, mem', PathIds(c) - {c.id})
  }

  lemma RelinkedHolds(key: nat -> int, mem: Mem, root: nat, mem': Mem, root': nat, c: Path, n: nat, n': nat)
    requires OrderedPath(key, c) && HoldsPath(mem, root, c, n) && Relinked(mem, root, mem', root', c, n')
    ensures HoldsPath(mem', root', c, n')
  {
    if c.In? {
      NotOnPath(key, c.up, c.id);
      HoldsStill(mem, mem', c.sib, c.id);
      HoldsPathStill(mem, mem', root, c.up, c.id);
    }
  }

  /** The root of `t` changed its parent; nothing else in `t` changed. */
  ghost predicate Reparented(mem: Mem, mem': Mem, t: Tree, parent: nat) {
    t.Node? ==> && t.id in mem && t.id in mem' && mem'[t.id] == mem[t.id].(parent := parent)
                && Same(mem, mem', Ids(t) - {t.id})
  }

  lemma ReparentedHolds(key: nat -> int, mem: Mem, mem': Mem, t: Tree, p: nat, p': nat)
    requires Ordered(key, t) && Holds(mem, t, p) && Reparented(mem, mem', t, p')
    ensures Holds(mem', t, p')
  {
    if t.Node? {
      HoldsStill(mem, mem', t.left, t.id);
      HoldsStill(mem, mem', t.right, t.id);
    }
  }

  ghost predicate OnSide(key: nat -> int, d: Side, ids: set<nat>, k: int) {
    if d == L then Below(key, ids, k) else Above(key, ids, k)
  }

  lemma OnSideAgain(key: nat -> int, d: Side, ids: set<nat>, k: int, k': int)
    requires OnSide(key, d, ids, k) && if d == L then k < k' else k' < k
    ensures OnSide(key, d, ids, k')
  {
  }

  lemma MkOrdered(key: nat -> int, d: Side, id: nat, red: bool, near: Tree, far: Tree)
    ensures Ids(Mk(d, id, red, near, far)) == Ids(near) + {id} + Ids(far)
    ensures Ordered(key, Mk(d, id, red, near, far)) <==>
            && Ordered(key, near) && Ordered(key, far)
            && OnSide(key, d, Ids(near), key(id)) && OnSide(key, Other(d), Ids(far), key(id))
  {
  }

  /** Below `x`: on the side `d` the tree `a`, on the other side `y` with `b` and `e`. */
  function Before(d: Side, x: nat, xr: bool, a: Tree, y: nat, yr: bool, b: Tree, e: Tree): Tree {
    Mk(d, x, xr, a, Mk(d, y, yr, b, e))
  }

  /** After rotating `x` down to the side `d`. */
  function After(d: Side, x: nat, xr: bool, a: Tree, y: nat, yr: bool, b: Tree, e: Tree): Tree {
    Mk(d, y, yr, Mk(d, x, xr, a, b), e)
  }

  lemma RotatedIds(d: Side, x: nat, xr: bool, a: Tree, y: nat, yr: bool, b: Tree, e: Tree)
    ensures Ids(After(d, x, xr, a, y, yr, b, e)) == Ids(Before(d, x, xr, a, y, yr, b, e))
         == Ids(a) + {x} + Ids(b) + {y} + Ids(e)
  {
  }

  lemma RotatedSearch(key: nat -> int, d: Side, x: nat, xr: bool, a: Tree, y: nat, yr: bool, b: Tree, e: Tree)
    requires Ordered(key, Before(d, x, xr, a, y, yr, b, e))
    ensures Ordered(key, After(d, x, xr, a, y, yr, b, e))
    ensures Ordered(key, a) && Ordered(key, b) && Ordered(key, e)
  {
    var u, v := Mk(d, y, yr, b, e), Mk(d, x, xr, a, b);
    MkOrdered(key, d, x, xr, a, u);
    MkOrdered(key, d, y, yr, b, e);
    assert y in Ids(u) && Ids(b) <= Ids(u);
    OnSideAgain(key, d, Ids(a), key(x), key(y));
    MkOrdered(key, d, x, xr, a, b);
    MkOrdered(key, d, y, yr, v, e);
  }

  lemma RotatedOrder(key: nat -> int, c: Path, d: Side, x: nat, xr: bool, a: Tree, y: nat, yr: bool, b: Tree, e: Tree)
    requires Placed(key, c, Before(d, x, xr, a, y, yr, b, e))
    ensures Placed(key, c, After(d, x, xr, a, y, yr, b, e))
  {
    RotatedSearch(key, d, x, xr, a, y, yr, b, e);
    RotatedIds(d, x, xr, a, y, yr, b, e);
    PlacedAgain(key, c, Before(d, x, xr, a, y, yr, b, e), After(d, x, xr, a, y, yr, b, e));
  }

  /* ---------- Colours ---------- */

  ghost function BlackHeight(t: Tree): nat {
    if t.Leaf? then 0 else BlackHeight(t.left) + (if t.red then 0 else 1)
  }

  /** No red node has a red child, and all ways down pass the same number of black nodes. */
  ghost predicate Sound(t: Tree) {
    t.Node? ==>
      && Sound(t.left) && Sound(t.right) && BlackHeight(t.left) == BlackHeight(t.right)
      && (t.red ==> !Red(t.left) && !Red(t.right))
  }

  lemma MkSound(d: Side, id: nat, red: bool, near: Tree, far: Tree)
    ensures Sound(Mk(d, id, red, near, far)) <==>
            && Sound(near) && Sound(far) && BlackHeight(near) == BlackHeight(far)
            && (red ==> !Red(near) && !Red(far))
    ensures BlackHeight(near) == BlackHeight(far) ==>
            BlackHeight(Mk(d, id, red, near, far)) == BlackHeight(near) + if red then 0 else 1
  {
  }

  /** The same of a path, for a tree of black height `h` in the hole.  The root is black. */
  ghost predicate SoundPath(c: Path, h: nat) {
    c.In? ==>
      && Sound(c.sib) && BlackHeight(c.sib) == h
      && (c.red ==> !Red(c.sib) && c.up.In? && !c.up.red)
      && SoundPath(c.up, if c.red then h else h + 1)
  }

  /** With `t` in the hole of `c` the whole is a red-black tree. */
  ghost predicate Fits(c: Path, t: Tree) {
    Sound(t) && SoundPath(c, BlackHeight(t)) && (Red(t) ==> c.In? && !c.red)
  }

  ghost predicate RedBlack(t: Tree) {
    Sound(t) && !Red(t)
  }

  lemma FitsUp(c: Path, t: Tree)
    requires c.In?
    ensures Fits(c, t) <==> Fits(c.up, Mk(c.side, c.id, c.red, t, c.sib))
  {
  }

  lemma {:induction false} FitsTop(c: Path, t: Tree)
    ensures Fits(c, t) <==> RedBlack(Plug(c, t))
  {
    if c.Top? {
    } else {
      FitsUp(c, t);
      FitsTop(c.up, Mk(c.side, c.id, c.red, t, c.sib));
    }
  }

  /** Colours do not depend on which node stands where. */
  lemma {:induction false} SoundPathCompose(c: Path, base: Path, base': Path, h: nat)
    requires base.In? && base'.In? && base' == base.(id := base'.id)
    ensures SoundPath(Compose(c, base), h) <==> SoundPath(Compose(c, base'), h)
  {
    if c.Top? {
    } else {
      SoundPathCompose(c.up, base, base', if c.red then h else h + 1);
    }
  }

  function Height(t: Tree): nat {
    if t.Leaf? then 0
    else if Height(t.left) > Height(t.right) then Height(t.left) + 1 else Height(t.right) + 1
  }

  function Size(t: Tree): nat {
    if t.Leaf? then 0 else Size(t.left) + 1 + Size(t.right)
  }

  lemma {:induction false} HeightAtMostTwice(t: Tree)
    requires Sound(t)
    ensures Height(t) <= 2 * BlackHeight(t) + (if Red(t) then 1 else 0)
  {
    if t.Leaf? {
    } else {
      HeightAtMostTwice(t.left);
      HeightAtMostTwice(t.right);
    }
  }

  lemma {:induction false} ManyNodes(t: Tree)
    requires Sound(t)
    ensures Arith.Pow2(BlackHeight(t)) <= Size(t) + 1
  {
    if t.Leaf? {
    } else {
      ManyNodes(t.left);
      ManyNodes(t.right);
    }
  }

  lemma {:induction false} SizeIsCount(key: nat -> int, t: Tree)
    requires Ordered(key, t)
    ensures Size(t) == |Ids(t)|
  {
    if t.Leaf? {
    } else {
      SizeIsCount(key, t.left);
      SizeIsCount(key, t.right);
      assert Ids(t.left) !! {t.id} !! Ids(t.right);
      assert |Ids(t)| == |Ids(t.left)| + 1 + |Ids(t.right)|;
    }
  }

  /** The height is at most twice the logarithm of the number of nodes. */
  lemma HeightIsLogarithmic(key: nat -> int, t: Tree)
    requires RedBlack(t) && Ordered(key, t)
    ensures Arith.Pow2(Height(t) / 2) <= |Ids(t)| + 1
  {
    HeightAtMostTwice(t);
    ManyNodes(t);
    SizeIsCount(key, t);
    Arith.Pow2Monotone(Height(t) / 2, BlackHeight(t));
  }
}
