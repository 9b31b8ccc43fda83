/** The red-black tree that src/tree.h generates: insertion, removal and search on nodes linked by
    left, right and parent pointers.  The two mirror images of each case are one, with a side. */
module RbTree {
  import opened RbSpec

  function Kid(cell: Cell, d: Side): nat {
    if d == L then cell.left else cell.right
  }

  function WithKid(cell: Cell, d: Side, n: nat): Cell {
    if d == L then cell.(left := n) else cell.(right := n)
  }

  /** The nodes below and above a place are different nodes. */
  lemma Apart(key: nat -> int, mem: Mem, root: nat, c: Path, t: Tree)
    requires At(key, mem, root, c, t)
    ensures Ids(t) !! PathIds(c) && 0 !in Ids(t) && 0 !in PathIds(c) && PathPtr(c) !in Ids(t)
  {
    forall i | i in Ids(t) ensures i !in PathIds(c) {
      NotOnPath(key, c, i);
    }
    HoldsIds(mem, t, PathPtr(c));
    HoldsPathIds(mem, root, c, Ptr(t));
  }

  /** Changing the colour of one node. */
  lemma PaintHolds(key: nat -> int, mem: Mem, root: nat, c: Path, x: Tree, red: bool)
    requires At(key, mem, root, c, x) && x.Node?
    ensures x.id in mem && At(key, mem[x.id := mem[x.id].(red := red)], root, c, x.(red := red))
  {
    var mem' := mem[x.id := mem[x.id].(red := red)];
    Apart(key, mem, root, c, x);
    HoldsStill(mem, mem', x.left, x.id);
    HoldsStill(mem, mem', x.right, x.id);
    HoldsPathStill(mem, mem', root, c, x.id);
  }

  ghost function AllIds(c: Path, x: Tree): set<nat> {
    Ids(x) + PathIds(c)
  }

  lemma AllIdsUp(c: Path, x: Tree)
    requires c.In?
    ensures AllIds(c, x) == AllIds(c.up, Mk(c.side, c.id, c.red, x, c.sib))
  {
  }

  /** The fields that the loops read. */
  lemma Reads(key: nat -> int, mem: Mem, root: nat, c: Path, x: Tree)
    requires At(key, mem, root, c, x)
    ensures x.Node? ==> x.id in mem && mem[x.id] == Cell(Ptr(x.left), Ptr(x.right), PathPtr(c), x.red) && x.id != 0
    ensures c.In? ==> c.id in mem && mem[c.id] == MkCell(c.side, Ptr(x), Ptr(c.sib), PathPtr(c.up), c.red) && c.id != 0
    ensures c.In? && c.sib.Node? ==> c.sib.id in mem && c.sib.id != 0
    ensures c.In? && c.sib.Node? ==> mem[c.sib.id] == Cell(Ptr(c.sib.left), Ptr(c.sib.right), c.id, c.sib.red)
    ensures c.In? && (x.Node? || c.sib.Node?) ==> Ptr(x) != Ptr(c.sib)
    ensures root == Ptr(x) <==> c.Top?
  {
    Apart(key, mem, root, c, x);
    assert x.Node? ==> x.id in Ids(x);
    assert c.In? ==> Ptr(c.sib) == 0 || Ptr(c.sib) in PathIds(c);
    if c.In? {
      RootOnPath(mem, root, c, Ptr(x));
    }
  }

  lemma {:induction false} RootOnPath(mem: Mem, root: nat, c: Path, n: nat)
    requires HoldsPath(mem, root, c, n) && c.In?
    ensures root in PathIds(c)
  {
    if c.up.Top? {
    } else {
      RootOnPath(mem, root, c.up, c.id);
    }
  }

  /** One step down, to the child on the side `d`. */
  function Down(d: Side, c: Path, x: Tree): Path
    requires x.Node?
  {
    In(d, x.id, x.red, Near(Other(d), x), c)
  }

  lemma MkOf(d: Side, x: Tree)
    requires x.Node?
    ensures x == Mk(d, x.id, x.red, Near(d, x), Near(Other(d), x))
    ensures Ids(x) == Ids(Near(d, x)) + {x.id} + Ids(Near(Other(d), x))
  {
  }

  lemma MkIds(d: Side, id: nat, red: bool, near: Tree, far: Tree)
    ensures Ids(Mk(d, id, red, near, far)) == Ids(near) + {id} + Ids(far)
  {
  }

  lemma FitsDown(d: Side, c: Path, x: Tree)
    requires Fits(c, x) && x.Node?
    ensures Fits(Down(d, c, x), Near(d, x))
  {
  }

  lemma Descend(key: nat -> int, mem: Mem, root: nat, c: Path, x: Tree, d: Side)
    requires At(key, mem, root, c, x) && x.Node?
    ensures At(key, mem, root, Down(d, c, x), Near(d, x))
    ensures AllIds(Down(d, c, x), Near(d, x)) == AllIds(c, x)
    ensures Plug(Down(d, c, x), Near(d, x)) == Plug(c, x)
    ensures Fits(c, x) ==> Fits(Down(d, c, x), Near(d, x))
  {
    MkOf(d, x);
    AtUp(key, mem, root, Down(d, c, x), Near(d, x));
    AllIdsUp(Down(d, c, x), Near(d, x));
    if Fits(c, x) {
      FitsDown(d, c, x);
    }
  }

  /** A search for the key `k` has come down to `x`. */
  ghost predicate Looking(key: nat -> int, mem: Mem, root: nat, c: Path, x: Tree, t: Tree, k: int) {
    At(key, mem, root, c, x) && Fits(c, x) && AllIds(c, x) == Ids(t) && Admits(key, c, k)
  }

  lemma LookDown(key: nat -> int, mem: Mem, root: nat, c: Path, x: Tree, t: Tree, k: int, d: Side)
    requires Looking(key, mem, root, c, x, t, k) && x.Node? && if d == L then k < key(x.id) else key(x.id) < k
    ensures Looking(key, mem, root, Down(d, c, x), Near(d, x), t, k)
    ensures x.id in mem && Kid(mem[x.id], d) == Ptr(Near(d, x))
  {
    Reads(key, mem, root, c, x);
    Descend(key, mem, root, c, x, d);
  }

  /** A search that ends below the tree finds nothing. */
  lemma NotFound(key: nat -> int, mem: Mem, root: nat, c: Path, t: Tree, k: int)
    requires Looking(key, mem, root, c, Leaf, t, k)
    ensures PathIds(c) == Ids(t) && forall i :: i in Ids(t) ==> key(i) != k
  {
    KeyNotOnPath(key, c, k);
  }

  /* ---------- Insertion ---------- */

  /** A new red node in the hole. */
  lemma AttachHolds(key: nat -> int, mem: Mem, root: nat, c: Path, elm: nat, mem': Mem, root': nat)
    requires At(key, mem, root, c, Leaf) && elm != 0 && elm !in PathIds(c) && Admits(key, c, key(elm))
    requires var added := mem[elm := Cell(0, 0, PathPtr(c), true)];
             if c.Top? then mem' == added && root' == elm
             else mem' == added[c.id := MkCell(c.side, elm, Ptr(c.sib), PathPtr(c.up), c.red)] && root' == root
    ensures At(key, mem', root', c, Node(elm, true, Leaf, Leaf))
  {
    HoldsPathIds(mem, root, c, 0);
    RelinkedHolds(key, mem, root, mem', root', c, 0, elm);
  }

  /** The loop of `RB_INSERT_COLOR`: all is well but that the red node `x` may be below a red one, or
      be the root. */
  ghost predicate Climbing(key: nat -> int, mem: Mem, root: nat, c: Path, x: Tree, ids: set<nat>) {
    && At(key, mem, root, c, x) && AllIds(c, x) == ids
    && Red(x) && Sound(x) && SoundPath(c, BlackHeight(x))
  }

  ghost predicate OutsidePair(x: Tree, b: Tree, h: nat) {
    Red(x) && Sound(x) && Sound(b) && !Red(b) && BlackHeight(x) == BlackHeight(b) == h
  }

  /** A red parent has a black parent, and all about it is sound. */
  lemma RedParent(c: Path, h: nat)
    requires c.In? && c.red && SoundPath(c, h)
    ensures c.up.In? && !c.up.red && Sound(c.sib) && !Red(c.sib) && BlackHeight(c.sib) == h
    ensures Sound(c.up.sib) && BlackHeight(c.up.sib) == h && SoundPath(c.up.up, h + 1)
  {
  }

  lemma FamilySets(x: set<nat>, p: nat, s: set<nat>, x': set<nat>, e: nat, b: set<nat>,
                   g: nat, u: set<nat>, up: set<nat>)
    requires x' + {e} + b == x + {p} + s
    ensures x' + ({e} + (b + {g} + u) + up) == x + ({p} + s + ({g} + u + up))
  {
    assert x' + ({e} + (b + {g} + u) + up) == (x' + {e} + b) + ({g} + u + up);
    assert x + ({p} + s + ({g} + u + up)) == (x + {p} + s) + ({g} + u + up);
  }

  lemma FamilyIds(c: Path, x: Tree, d: Side, g: nat, e: nat, x': Tree, b: Tree)
    requires c.In? && c.up.In? && g == c.up.id && Ids(x') + {e} + Ids(b) == Ids(x) + {c.id} + Ids(c.sib)
    ensures AllIds(In(d, e, false, Mk(d, g, true, b, c.up.sib), c.up.up), x') == AllIds(c, x)
  {
    var m := Mk(d, g, true, b, c.up.sib);
    MkIds(d, g, true, b, c.up.sib);
    assert PathIds(In(d, e, false, m, c.up.up)) == {e} + Ids(m) + PathIds(c.up.up);
    assert PathIds(c) == {c.id} + Ids(c.sib) + PathIds(c.up);
    assert PathIds(c.up) == {g} + Ids(c.up.sib) + PathIds(c.up.up);
    FamilySets(Ids(x), c.id, Ids(c.sib), Ids(x'), e, Ids(b), g, Ids(c.up.sib), PathIds(c.up.up));
  }

  /** When the loop ends, blackening the root makes a red-black tree. */
  lemma InsertEnds(c: Path, x: Tree)
    requires Red(x) && Sound(x) && SoundPath(c, BlackHeight(x)) && (c.In? ==> !c.red)
    ensures var w := Plug(c, x); w.Node? && RedBlack(Blacken(w)) && Ids(Blacken(w)) == AllIds(c, x)
  {
    PlugIds(c, x);
    if c.In? {
      FitsTop(c, x);
      PlugNode(c, x);
    }
  }

  lemma {:induction false} PlugNode(c: Path, x: Tree)
    requires c.In? || x.Node?
    ensures Plug(c, x).Node?
  {
    if c.Top? {
    } else {
      PlugNode(c.up, Mk(c.side, c.id, c.red, x, c.sib));
    }
  }

  /** After the rotation the red node is below a black one. */
  lemma ClimbsNoFurther(c: Path, x: Tree, e: nat, x': Tree, b: Tree)
    requires c.In? && c.red && SoundPath(c, BlackHeight(x)) && !Red(c.up.sib)
    requires OutsidePair(x', b, BlackHeight(x)) && Ids(x') + {e} + Ids(b) == Ids(x) + {c.id} + Ids(c.sib)
    ensures var c' := In(c.up.side, e, false, Mk(c.up.side, c.up.id, true, b, c.up.sib), c.up.up);
            SoundPath(c', BlackHeight(x')) && AllIds(c', x') == AllIds(c, x) && Depth(c') < Depth(c)
  {
    RedParent(c, BlackHeight(x));
    BlackUncleSound(c.up.side, c.up.id, e, x', b, c.up.sib, c.up.up);
    FamilyIds(c, x, c.up.side, c.up.id, e, x', b);
  }

  lemma RedUncleSound(d: Side, g: nat, p: Tree, uncle: Tree, up: Path)
    requires Red(p) && Red(uncle) && Sound(Blacken(p)) && Sound(uncle)
    requires BlackHeight(p) == BlackHeight(uncle) && SoundPath(up, BlackHeight(uncle) + 1)
    ensures var t := Mk(d, g, true, Blacken(p), Blacken(uncle));
            Sound(t) && SoundPath(up, BlackHeight(t))
  {
  }

  lemma BlackUncleSound(d: Side, g: nat, e: nat, x: Tree, b: Tree, uncle: Tree, up: Path)
    requires Sound(x) && Sound(b) && !Red(b) && Sound(uncle) && !Red(uncle)
    requires BlackHeight(x) == BlackHeight(b) == BlackHeight(uncle) && SoundPath(up, BlackHeight(uncle) + 1)
    ensures SoundPath(In(d, e, false, Mk(d, g, true, b, uncle), up), BlackHeight(x))
  {
  }

  /** A rotation moves the nodes `x` and `y` and the top of `b`, and the link from above. */
  ghost predicate RotatedCells(mem: Mem, root: nat, mem': Mem, root': nat, c: Path,
                               d: Side, x: nat, xr: bool, a: Tree, y: nat, yr: bool, b: Tree, e: Tree) {
    && x in mem' && mem'[x] == MkCell(d, Ptr(a), Ptr(b), y, xr)
    && y in mem' && mem'[y] == MkCell(d, x, Ptr(e), PathPtr(c), yr)
    && (b.Node? ==> b.id in mem && b.id in mem' && mem'[b.id] == mem[b.id].(parent := x))
    && (if c.Top? then root' == y
        else root' == root && c.id in mem' && mem'[c.id] == MkCell(c.side, y, Ptr(c.sib), PathPtr(c.up), c.red))
    && (forall i :: i in mem && i !in {x, y, Ptr(b), PathPtr(c)} ==> i in mem' && mem'[i] == mem[i])
  }

  /** Everything outside `ids` is as it was. */
  lemma SameOutside(mem: Mem, mem': Mem, ids: set<nat>, part: set<nat>)
    requires forall i :: i in mem && i !in ids ==> i in mem' && mem'[i] == mem[i]
    requires part !! ids
    ensures Same(mem, mem', part)
  {
  }

  lemma RotateHoldsTree(key: nat -> int, mem: Mem, mem': Mem, p: nat,
                        d: Side, x: nat, xr: bool, a: Tree, y: nat, yr: bool, b: Tree, e: Tree)
    requires Holds(mem, Before(d, x, xr, a, y, yr, b, e), p) && Ordered(key, b)
    requires Same(mem, mem', Ids(a)) && Reparented(mem, mem', b, x) && Same(mem, mem', Ids(e))
    requires x in mem' && mem'[x] == MkCell(d, Ptr(a), Ptr(b), y, xr)
    requires y in mem' && mem'[y] == MkCell(d, x, Ptr(e), p, yr)
    ensures Holds(mem', After(d, x, xr, a, y, yr, b, e), p)
  {
    MkHolds(mem, d, x, xr, a, Mk(d, y, yr, b, e), p);
    MkHolds(mem, d, y, yr, b, e, x);
    HoldsStill(mem, mem', a, x);
    HoldsStill(mem, mem', e, y);
    ReparentedHolds(key, mem, mem', b, y, x);
    MkHolds(mem', d, x, xr, a, b, y);
    MkHolds(mem', d, y, yr, Mk(d, x, xr, a, b), e, p);
  }

  lemma RotateParts(mem: Mem, root: nat, mem': Mem, root': nat, c: Path,
                    d: Side, x: nat, xr: bool, a: Tree, y: nat, yr: bool, b: Tree, e: Tree)
    requires Ids(a) !! {x} !! Ids(b) !! {y} !! Ids(e) && PathPtr(c) !in Ids(a) + Ids(b) + Ids(e)
    requires 0 !in Ids(a) + Ids(e)
    requires RotatedCells(mem, root, mem', root', c, d, x, xr, a, y, yr, b, e)
    ensures Same(mem, mem', Ids(a)) && Reparented(mem, mem', b, x) && Same(mem, mem', Ids(e))
  {
    var ids := {x, y, Ptr(b), PathPtr(c)};
    assert Ptr(b) == 0 || Ptr(b) in Ids(b);
    SameOutside(mem, mem', ids, Ids(a));
    SameOutside(mem, mem', ids, Ids(e));
    SameOutside(mem, mem', ids, Ids(b) - {Ptr(b)});
  }

  lemma RotateLink(mem: Mem, root: nat, mem': Mem, root': nat, c: Path,
                   d: Side, x: nat, xr: bool, a: Tree, y: nat, yr: bool, b: Tree, e: Tree)
    requires PathIds(c) !! {x} + Ids(b) + {y} && 0 !in PathIds(c)
    requires RotatedCells(mem, root, mem', root', c, d, x, xr, a, y, yr, b, e)
    ensures Relinked(mem, root, mem', root', c, y)
  {
    assert Ptr(b) == 0 || Ptr(b) in Ids(b);
    SameOutside(mem, mem', {x, y, Ptr(b), PathPtr(c)}, PathIds(c) - {PathPtr(c)});
  }

  lemma RotateChanges(key: nat -> int, mem: Mem, root: nat, mem': Mem, root': nat, c: Path,
                      d: Side, x: nat, xr: bool, a: Tree, y: nat, yr: bool, b: Tree, e: Tree)
    requires At(key, mem, root, c, Before(d, x, xr, a, y, yr, b, e))
    requires RotatedCells(mem, root, mem', root', c, d, x, xr, a, y, yr, b, e)
    ensures Same(mem, mem', Ids(a)) && Reparented(mem, mem', b, x) && Same(mem, mem', Ids(e))
    ensures Relinked(mem, root, mem', root', c, y)
  {
    Apart(key, mem, root, c, Before(d, x, xr, a, y, yr, b, e));
    RotatedIds(d, x, xr, a, y, yr, b, e);
    RotateApart(key, d, x, xr, a, y, yr, b, e);
    RotateParts(mem, root, mem', root', c, d, x, xr, a, y, yr, b, e);
    RotateLink(mem, root, mem', root', c, d, x, xr, a, y, yr, b, e);
  }

  lemma RotateHolds(key: nat -> int, mem: Mem, root: nat, mem': Mem, root': nat, c: Path,
                    d: Side, x: nat, xr: bool, a: Tree, y: nat, yr: bool, b: Tree, e: Tree)
    requires At(key, mem, root, c, Before(d, x, xr, a, y, yr, b, e))
    requires RotatedCells(mem, root, mem', root', c, d, x, xr, a, y, yr, b, e)
    ensures At(key, mem', root', c, After(d, x, xr, a, y, yr, b, e))
  {
    RotatedSearch(key, d, x, xr, a, y, yr, b, e);
    RotateChanges(key, mem, root, mem', root', c, d, x, xr, a, y, yr, b, e);
    RotateHoldsTree(key, mem, mem', PathPtr(c), d, x, xr, a, y, yr, b, e);
    RotatedOrder(key, c, d, x, xr, a, y, yr, b, e);
    RelinkedHolds(key, mem, root, mem', root', c, x, y);
  }

  /* ---------- Removal ---------- */

  /** The loop of `RB_REMOVE_COLOR`: ways through `x` pass one black node too few, and `x` may be red
      below a red node.  All else is well. */
  ghost predicate Falling(key: nat -> int, mem: Mem, root: nat, c: Path, x: Tree, ids: set<nat>) {
    && At(key, mem, root, c, x) && AllIds(c, x) == ids
    && Sound(Blacken(x)) && SoundPath(c, BlackHeight(x) + 1)
  }

  /** The sibling of a short tree is a node. */
  lemma Sibling(c: Path, h: nat)
    requires c.In? && SoundPath(c, h + 1)
    ensures c.sib.Node? && Sound(c.sib) && BlackHeight(c.sib) == h + 1 && (c.red ==> !Red(c.sib))
    ensures SoundPath(c.up, h + 1 + if c.red then 0 else 1) && (c.red ==> c.up.In? && !c.up.red)
    ensures var y := c.sib; y == Mk(c.side, y.id, y.red, Near(c.side, y), Near(Other(c.side), y))
    ensures Sound(c.sib.left) && Sound(c.sib.right) && BlackHeight(c.sib.left) == BlackHeight(c.sib.right)
    ensures c.sib.red ==> !Red(c.sib.left) && !Red(c.sib.right) && BlackHeight(c.sib.left) == h + 1
    ensures !c.sib.red ==> BlackHeight(c.sib.left) == h
  {
  }

  /** A red sibling `y` has been turned up: the sibling is now its near child. */
  function Turned(c: Path, y: Tree): Path
    requires c.In? && y.Node?
  {
    In(c.side, c.id, true, Near(c.side, y), In(c.side, y.id, false, Near(Other(c.side), y), c.up))
  }

  lemma TurnedSound(c: Path, h: nat)
    requires c.In? && SoundPath(c, h + 1) && Red(c.sib)
    ensures SoundPath(Turned(c, c.sib), h + 1) && !Red(Near(c.side, c.sib))
  {
  }

  lemma TurnedIds(c: Path, x: Tree)
    requires c.In? && c.sib.Node?
    ensures AllIds(Turned(c, c.sib), x) == AllIds(c, x)
  {
    var y := c.sib;
    var n, f := Near(c.side, y), Near(Other(c.side), y);
    assert Ids(y) == Ids(n) + {y.id} + Ids(f);
    assert PathIds(Turned(c, y).up) == {y.id} + Ids(f) + PathIds(c.up);
  }

  /** Both nephews are black: the sibling becomes red, and the parent is short in turn. */
  lemma BlackNephewsSound(c: Path, x: Tree)
    requires c.In? && !Red(x) && Sound(x) && SoundPath(c, BlackHeight(x) + 1)
    requires c.sib.Node? && !Red(c.sib) && !Red(c.sib.left) && !Red(c.sib.right)
    ensures var x' := Mk(c.side, c.id, c.red, x, c.sib.(red := true));
            Sound(Blacken(x')) && SoundPath(c.up, BlackHeight(x') + 1) && AllIds(c.up, x') == AllIds(c, x)
  {
    AllIdsUp(c, x);
    MkOf(c.side, Mk(c.side, c.id, c.red, x, c.sib));
    MkOf(c.side, Mk(c.side, c.id, c.red, x, c.sib.(red := true)));
  }

  /** The sibling `m` with near nephew `n` and a red far nephew `f`. */
  ghost predicate FarRed(n: Tree, f: Tree, h: nat) {
    Sound(n) && Sound(f) && Red(f) && BlackHeight(n) == BlackHeight(f) == h
  }

  /** The last rotation of a removal puts the missing black node back. */
  lemma FarNephewSound(d: Side, p: nat, pr: bool, x: Tree, m: nat, n: Tree, f: Tree, up: Path)
    requires !Red(x) && Sound(x) && FarRed(n, f, BlackHeight(x))
    requires SoundPath(up, BlackHeight(x) + 1 + if pr then 0 else 1) && (pr ==> up.In? && !up.red)
    ensures Fits(up, Mk(d, m, pr, Mk(d, p, false, x, n), Blacken(f)))
  {
  }

  lemma RemovedIds(c: Path, x: Tree, m: nat, n: Tree, f: Tree)
    requires c.In? && c.sib.Node? && Ids(n) + {m} + Ids(f) == Ids(c.sib.left) + {c.sib.id} + Ids(c.sib.right)
    ensures AllIds(c.up, Mk(c.side, m, c.red, Mk(c.side, c.id, false, x, n), Blacken(f))) == AllIds(c, x)
  {
    var p := Mk(c.side, c.id, false, x, n);
    assert Ids(p) == Ids(x) + {c.id} + Ids(n);
    assert Ids(Mk(c.side, m, c.red, p, Blacken(f))) == Ids(p) + {m} + Ids(f);
  }

  /** What the last rotation leaves is in order. */
  lemma Repaired(c: Path, x: Tree, m: nat, n: Tree, f: Tree)
    requires !Red(x) && Sound(x) && c.In? && c.sib.Node? && SoundPath(c, BlackHeight(x) + 1)
    requires FarRed(n, f, BlackHeight(x))
    requires Ids(n) + {m} + Ids(f) == Ids(c.sib.left) + {c.sib.id} + Ids(c.sib.right)
    ensures var x' := Mk(c.side, m, c.red, Mk(c.side, c.id, false, x, n), Blacken(f));
            Fits(c.up, x') && AllIds(c.up, x') == AllIds(c, x)
  {
    Sibling(c, BlackHeight(x));
    FarNephewSound(c.side, c.id, c.red, x, m, n, f, c.up);
    RemovedIds(c, x, m, n, f);
  }

  /** The fields of the sibling and its children. */
  lemma ReadsNephews(key: nat -> int, mem: Mem, root: nat, c: Path, x: Tree)
    requires At(key, mem, root, c, x) && c.In? && c.sib.Node?
    ensures c.sib.id in mem && mem[c.sib.id] == Cell(Ptr(c.sib.left), Ptr(c.sib.right), c.id, c.sib.red)
    ensures var n := c.sib.left; n.Node? ==> n.id != 0 && n.id in mem && mem[n.id].red == n.red
    ensures var f := c.sib.right; f.Node? ==> f.id != 0 && f.id in mem && mem[f.id].red == f.red
  {
    assert Holds(mem, c.sib, c.id);
    assert Holds(mem, c.sib.left, c.sib.id) && Holds(mem, c.sib.right, c.sib.id);
  }

  ghost function StepsLeft(c: Path, x: Tree): nat {
    if Red(x) then 0 else 1 + Depth(c)
  }

  lemma RemoveStops(key: nat -> int, mem: Mem, root: nat, c: Path, x: Tree)
    requires At(key, mem, root, c, x) && Fits(c, x)
    ensures var w := Plug(c, x);
            && At(key, mem, root, Top, w) && root == Ptr(w)
            && RedBlack(Plug(Top, Blacken(w))) && Ids(Plug(Top, Blacken(w))) == AllIds(c, x)
  {
    FitsTop(c, x);
    PlugIds(c, x);
    AtTop(key, mem, root, c, x);
  }

  /** When the loop ends, blackening the node it has come to makes a red-black tree. */
  lemma RemoveEnds(c: Path, x: Tree)
    requires Sound(Blacken(x)) && SoundPath(c, BlackHeight(x) + 1) && (Red(x) || c.Top?)
    ensures RedBlack(Plug(c, Blacken(x))) && Ids(Plug(c, Blacken(x))) == AllIds(c, x)
  {
    FitsTop(c, Blacken(x));
    PlugIds(c, Blacken(x));
  }

  lemma SpliceReads(key: nat -> int, mem: Mem, root: nat, c: Path, d: Side, e: nat, red: bool, k: Tree)
    requires At(key, mem, root, c, Mk(d, e, red, Leaf, k))
    ensures k.Node? ==> k.id in mem && k.id != 0 && k.id != PathPtr(c)
    ensures c.In? ==> c.id in mem && mem[c.id] == MkCell(c.side, e, Ptr(c.sib), PathPtr(c.up), c.red) && c.id != 0
    ensures c.In? ==> Ptr(c.sib) != e
  {
    Apart(key, mem, root, c, Mk(d, e, red, Leaf, k));
    Reads(key, mem, root, c, Mk(d, e, red, Leaf, k));
    assert Holds(mem, k, e);
    assert k.Node? ==> k.id in Ids(k);
  }

  lemma SpliceHolds(key: nat -> int, mem: Mem, root: nat, mem': Mem, root': nat, c: Path,
                    d: Side, e: nat, red: bool, k: Tree)
    requires At(key, mem, root, c, Mk(d, e, red, Leaf, k))
    requires k.Node? ==> k.id in mem
    requires var m := if k.Leaf? then mem else mem[k.id := mem[k.id].(parent := PathPtr(c))];
             if c.Top? then mem' == m && root' == Ptr(k)
             else mem' == m[c.id := MkCell(c.side, Ptr(k), Ptr(c.sib), PathPtr(c.up), c.red)] && root' == root
    ensures At(key, mem', root', c, k)
  {
    var x := Mk(d, e, red, Leaf, k);
    Apart(key, mem, root, c, x);
    assert Ids(k) <= Ids(x) && (k.Node? ==> k.id in Ids(k));
    PlacedAgain(key, c, x, k);
    ReparentedHolds(key, mem, mem', k, e, PathPtr(c));
    RelinkedHolds(key, mem, root, mem', root', c, e, Ptr(k));
  }

  lemma ReplaceReads(key: nat -> int, mem: Mem, root: nat, c: Path, o: nat, red: bool, l: Tree, r: Tree)
    requires At(key, mem, root, c, Node(o, red, l, r)) && l.Node?
    ensures o in mem && mem[o] == Cell(l.id, Ptr(r), PathPtr(c), red) && l.id in mem && l.id != o && Ptr(r) != o
    ensures PathPtr(c) != l.id && PathPtr(c) != o && Ptr(r) != l.id
    ensures r.Node? ==> r.id in mem && r.id != 0 && r.id != PathPtr(c)
    ensures c.In? ==> c.id in mem && mem[c.id] == MkCell(c.side, o, Ptr(c.sib), PathPtr(c.up), c.red) && c.id != 0
    ensures c.In? ==> Ptr(c.sib) != o
  {
    Apart(key, mem, root, c, Node(o, red, l, r));
    Reads(key, mem, root, c, Node(o, red, l, r));
    assert Holds(mem, l, o) && Holds(mem, r, o);
    assert l.id in Ids(l) && (r.Node? ==> r.id in Ids(r));
  }

  lemma ReplaceApart(e: nat, c: Path, o: nat, red: bool, l: Tree, r: Tree)
    requires e != 0 && e !in AllIds(c, Node(o, red, l, r))
    ensures e !in {o, Ptr(l), Ptr(r), PathPtr(c)}
  {
    assert l.Node? ==> l.id in Ids(l);
    assert r.Node? ==> r.id in Ids(r);
  }

  /** The memory after the node `e` has been put in place of another, below `c` and above `l` and `r`. */
  ghost predicate ReplacedCells(mem: Mem, root: nat, mem': Mem, root': nat, c: Path,
                                e: nat, red: bool, l: Tree, r: Tree) {
    && l.Node? && l.id in mem && (r.Node? ==> r.id in mem)
    && root' == (if c.Top? then e else root)
    && var m := mem[e := Cell(l.id, Ptr(r), PathPtr(c), red)];
       var m1 := if c.Top? then m else m[c.id := MkCell(c.side, e, Ptr(c.sib), PathPtr(c.up), c.red)];
       var m2 := m1[l.id := mem[l.id].(parent := e)];
       mem' == if r.Leaf? then m2 else m2[r.id := mem[r.id].(parent := e)]
  }

  lemma ReplaceParts(mem: Mem, root: nat, mem': Mem, root': nat, c: Path, e: nat, red: bool, l: Tree, r: Tree)
    requires ReplacedCells(mem, root, mem', root', c, e, red, l, r)
    requires Ids(l) !! Ids(r) !! PathIds(c) !! {e}
    ensures e in mem' && mem'[e] == Cell(l.id, Ptr(r), PathPtr(c), red)
    ensures Reparented(mem, mem', l, e) && Reparented(mem, mem', r, e) && Relinked(mem, root, mem', root', c, e)
  {
  }

  lemma ReplaceHolds(key: nat -> int, mem: Mem, root: nat, mem': Mem, root': nat, c: Path,
                     e: nat, o: nat, red: bool, l: Tree, r: Tree)
    requires At(key, mem, root, c, Node(o, red, l, r)) && e != 0 && e !in AllIds(c, Node(o, red, l, r))
    requires Ordered(key, Node(e, red, l, r)) && Admits(key, c, key(e))
    requires ReplacedCells(mem, root, mem', root', c, e, red, l, r)
    ensures At(key, mem', root', c, Node(e, red, l, r))
  {
    Apart(key, mem, root, c, Node(o, red, l, r));
    ReplaceParts(mem, root, mem', root', c, e, red, l, r);
    ReparentedHolds(key, mem, mem', l, o, e);
    ReparentedHolds(key, mem, mem', r, o, e);
    RelinkedHolds(key, mem, root, mem', root', c, o, e);
  }

  /** The way to a node. */
  lemma {:induction false} WayTo(key: nat -> int, mem: Mem, root: nat, c: Path, x: Tree, id: nat)
    returns (c': Path, x': Tree)
    requires At(key, mem, root, c, x) && Fits(c, x) && id in Ids(x)
    ensures At(key, mem, root, c', x') && Fits(c', x') && x'.Node? && x'.id == id && AllIds(c', x') == AllIds(c, x)
    decreases x
  {
    if x.id == id {
      c', x' := c, x;
    } else {
      var d := if id in Ids(x.left) then L else R;
      Descend(key, mem, root, c, x, d);
      c', x' := WayTo(key, mem, root, Down(d, c, x), Near(d, x), id);
    }
  }

  /** What is left of the colours when a node with at most one child is taken out. */
  lemma SpliceFits(c: Path, d: Side, e: nat, red: bool, k: Tree)
    requires Fits(c, Mk(d, e, red, Leaf, k))
    ensures Leaves(red, c, k)
  {
    MkSound(d, e, red, Leaf, k);
    assert Sound(k);
  }

  lemma SplicedIds(key: nat -> int, mem: Mem, root: nat, c: Path, d: Side, e: nat, red: bool, k: Tree)
    requires At(key, mem, root, c, Mk(d, e, red, Leaf, k))
    ensures AllIds(c, k) == AllIds(c, Mk(d, e, red, Leaf, k)) - {e}
  {
    Apart(key, mem, root, c, Mk(d, e, red, Leaf, k));
    MkIds(d, e, red, Leaf, k);
    assert e !in Ids(k);
  }

  /** What a removal leaves of the colours, above the hole. */
  ghost predicate Leaves(red: bool, c: Path, k: Tree) {
    if red then k.Leaf? && SoundPath(c, 0) else Sound(Blacken(k)) && SoundPath(c, BlackHeight(k) + 1)
  }

  lemma SameColours(cr: Path, base: Path, base': Path, red: bool, k: Tree)
    requires base.In? && base'.In? && base' == base.(id := base'.id) && Leaves(red, Compose(cr, base), k)
    ensures Leaves(red, Compose(cr, base'), k)
    ensures PathPtr(Compose(cr, base')) == if cr.Top? then base'.id else PathPtr(Compose(cr, base))
  {
    SoundPathCompose(cr, base, base', if red then 0 else BlackHeight(k) + 1);
  }

  /** The successor `e` of `o` may stand where `o` is. */
  lemma SuccessorFits(key: nat -> int, cr: Path, o: nat, ored: bool, l: Tree, c: Path, e: nat, k: Tree)
    requires AllLeft(cr) && Above(key, Ids(k), key(e))
    requires var full := Compose(cr, In(R, o, ored, l, c)); OrderedPath(key, full) && Admits(key, full, key(e))
    requires Ordered(key, Plug(cr, k))
    ensures Ordered(key, Node(e, ored, l, Plug(cr, k))) && Admits(key, c, key(e)) && key(o) < key(e)
    ensures Above(key, PathIds(cr), key(e)) && OrderedPath(key, In(R, o, ored, l, c))
  {
    var base := In(R, o, ored, l, c);
    LeftEdge(key, cr, base, key(e));
    PlugIds(cr, k);
    BaseOrdered(key, cr, base);
  }

  /** It is another node than those about it. */
  lemma SuccessorApart(key: nat -> int, cr: Path, o: nat, ored: bool, l: Tree, c: Path, e: nat, k: Tree)
    requires Above(key, Ids(k), key(e)) && Above(key, PathIds(cr), key(e)) && key(o) < key(e)
    requires OrderedPath(key, In(R, o, ored, l, c)) && Admits(key, c, key(e))
    ensures e !in AllIds(c, Node(o, ored, l, Plug(cr, k)))
    ensures cr.In? ==> cr.id != o
  {
    PlugIds(cr, k);
    NotOnPath(key, c, e);
  }

  lemma {:induction false} BaseOrdered(key: nat -> int, cr: Path, base: Path)
    requires OrderedPath(key, Compose(cr, base))
    ensures OrderedPath(key, base)
  {
    if cr.Top? {
    } else {
      BaseOrdered(key, cr.up, base);
    }
  }

  lemma SuccessorIds(cr: Path, o: nat, ored: bool, l: Tree, c: Path, e: nat, yr: bool, k: Tree)
    requires o !in PathIds(cr) + {e} + Ids(k) + Ids(l) + PathIds(c)
    ensures AllIds(Compose(cr, In(R, e, ored, l, c)), k)
         == AllIds(Compose(cr, In(R, o, ored, l, c)), Node(e, yr, Leaf, k)) - {o}
  {
    ComposeIds(cr, In(R, e, ored, l, c));
    ComposeIds(cr, In(R, o, ored, l, c));
    var b := Ids(l) + PathIds(c);
    assert Ids(Node(e, yr, Leaf, k)) == {e} + Ids(k);
    assert PathIds(In(R, e, ored, l, c)) == {e} + b && PathIds(In(R, o, ored, l, c)) == {o} + b;
    SetSwap(Ids(k), PathIds(cr), b, e, o);
  }

  lemma SetSwap(k: set<nat>, a: set<nat>, b: set<nat>, e: nat, o: nat)
    requires o !in k + a + b + {e}
    ensures k + (a + ({e} + b)) == ({e} + k + (a + ({o} + b))) - {o}
  {
  }

  /** The removed node is not among the others. */
  lemma GoneIds(key: nat -> int, cr: Path, o: nat, ored: bool, l: Tree, c: Path, e: nat, k: Tree)
    requires AllLeft(cr) && key(o) < key(e) && Above(key, Ids(k), key(e)) && Above(key, PathIds(cr), key(e))
    requires OrderedPath(key, In(R, o, ored, l, c))
    ensures o !in PathIds(cr) + {e} + Ids(k) + Ids(l) + PathIds(c)
  {
    NotOnPath(key, c, o);
  }

  /** The ids below the way down, before and after the exchange. */
  lemma SwapIds(key: nat -> int, cr: Path, o: nat, ored: bool, l: Tree, c: Path, e: nat, k: Tree)
    requires AllLeft(cr) && key(o) < key(e) && Above(key, Ids(k), key(e)) && Above(key, PathIds(cr), key(e))
    requires OrderedPath(key, In(R, o, ored, l, c))
    ensures AllIds(Compose(cr, In(R, e, ored, l, c)), k)
         == AllIds(Compose(cr, In(R, o, ored, l, c)), Node(e, ored, Leaf, k)) - {o}
  {
    GoneIds(key, cr, o, ored, l, c, e, k);
    SuccessorIds(cr, o, ored, l, c, e, ored, k);
  }

  /** The same memory, looked at from the node whose right subtree the way leads down. */
  lemma AboveWay(key: nat -> int, mem: Mem, root: nat, cr: Path, o: nat, red: bool, l: Tree, c: Path, k: Tree)
    ensures At(key, mem, root, Compose(cr, In(R, o, red, l, c)), k)
       <==> At(key, mem, root, c, Node(o, red, l, Plug(cr, k)))
  {
    AtCompose(key, mem, root, cr, In(R, o, red, l, c), k);
    AtUp(key, mem, root, In(R, o, red, l, c), Plug(cr, k));
  }

  /** What the place of the leftmost node says of it. */
  lemma SuccessorFacts(key: nat -> int, mem: Mem, root: nat, c: Path, y: Tree, red: bool)
    requires At(key, mem, root, c, y) && y.Node? && y.left.Leaf?
    ensures y.id != 0
    ensures Above(key, Ids(y.right), key(y.id)) && Admits(key, c, key(y.id))
    ensures AllIds(c, Node(y.id, red, Leaf, y.right)) == AllIds(c, y)
  {
    assert y.id in Ids(y);
    assert Ids(Node(y.id, red, Leaf, y.right)) == Ids(y);
  }

  lemma ReadsKids(key: nat -> int, mem: Mem, root: nat, c: Path, x: Tree)
    requires At(key, mem, root, c, x) && x.Node?
    ensures x.id in mem && mem[x.id].left == Ptr(x.left) && mem[x.id].right == Ptr(x.right)
    ensures Ptr(x.left) == 0 <==> x.left.Leaf?
    ensures Ptr(x.right) == 0 <==> x.right.Leaf?
    ensures x == Mk(L, x.id, x.red, x.left, x.right) == Mk(R, x.id, x.red, x.right, x.left)
  {
    Reads(key, mem, root, c, x);
    assert Holds(mem, x.left, x.id) && Holds(mem, x.right, x.id);
  }

  /** Along the side `d` the last node is the extreme one. */
  ghost predicate Extreme(key: nat -> int, ids: set<nat>, n: nat, d: Side) {
    n in ids && forall i :: i in ids && i != n ==> if d == L then key(n) < key(i) else key(i) < key(n)
  }

  lemma ExtremeDown(key: nat -> int, mem: Mem, root: nat, c: Path, x: Tree, d: Side)
    requires At(key, mem, root, c, x) && x.Node? && (c.In? ==> c.side == d && Extreme(key, PathIds(c), c.id, d))
    ensures Extreme(key, PathIds(Down(d, c, x)), x.id, d)
  {
  }

  /** The way down to the left has come to `y`, in a tree of the nodes `ids`. */
  ghost predicate GoingLeft(key: nat -> int, mem: Mem, root: nat, cr: Path, base: Path, y: Tree, ids: set<nat>) {
    && AllLeft(cr) && y.Node? && At(key, mem, root, Compose(cr, base), y) && Fits(Compose(cr, base), y)
    && AllIds(Compose(cr, base), y) == ids
  }

  lemma GoLeft(key: nat -> int, mem: Mem, root: nat, cr: Path, base: Path, y: Tree, ids: set<nat>)
    requires GoingLeft(key, mem, root, cr, base, y, ids)
    ensures y.id in mem && mem[y.id].left == Ptr(y.left) && (Ptr(y.left) == 0 <==> y.left.Leaf?)
    ensures y.left.Node? ==> GoingLeft(key, mem, root, Down(L, cr, y), base, y.left, ids)
  {
    var c := Compose(cr, base);
    Reads(key, mem, root, c, y);
    Descend(key, mem, root, c, y, L);
    Reads(key, mem, root, Down(L, c, y), y.left);
    assert Compose(Down(L, cr, y), base) == Down(L, c, y);
  }

  lemma RotateApart(key: nat -> int, d: Side, x: nat, xr: bool, a: Tree, y: nat, yr: bool, b: Tree, e: Tree)
    requires Ordered(key, Before(d, x, xr, a, y, yr, b, e))
    ensures x != y && Ids(a) !! {x} !! Ids(b) !! {y} !! Ids(e)
  {
  }

  /** What a rotation reads, and that the nodes it writes are different. */
  ghost predicate RotateReads(mem: Mem, c: Path, d: Side, x: nat, xr: bool, a: Tree, y: nat, yr: bool, b: Tree,
                              e: Tree) {
    && x in mem && mem[x] == MkCell(d, Ptr(a), y, PathPtr(c), xr)
    && y in mem && mem[y] == MkCell(d, Ptr(b), Ptr(e), x, yr)
    && (b.Node? ==> Ptr(b) in mem && Ptr(b) != 0)
    && (c.In? ==> c.id in mem && mem[c.id] == MkCell(c.side, x, Ptr(c.sib), PathPtr(c.up), c.red) && c.id != 0)
    && (c.In? ==> Ptr(c.sib) != x)
    && x != y && Ptr(b) != x && Ptr(b) != y && PathPtr(c) != x && PathPtr(c) != y && x != 0 && y != 0
    && (Ptr(b) != 0 ==> PathPtr(c) != Ptr(b))
  }

  lemma RotateNodesDiffer(key: nat -> int, mem: Mem, root: nat, c: Path,
                          d: Side, x: nat, xr: bool, a: Tree, y: nat, yr: bool, b: Tree, e: Tree)
    requires At(key, mem, root, c, Before(d, x, xr, a, y, yr, b, e))
    ensures x != y && Ptr(b) != x && Ptr(b) != y && PathPtr(c) != x && PathPtr(c) != y && x != 0 && y != 0
    ensures (Ptr(b) != 0 ==> PathPtr(c) != Ptr(b)) && (c.In? ==> Ptr(c.sib) != x)
  {
    Apart(key, mem, root, c, Before(d, x, xr, a, y, yr, b, e));
    RotatedIds(d, x, xr, a, y, yr, b, e);
    RotateApart(key, d, x, xr, a, y, yr, b, e);
    assert Ptr(b) == 0 || Ptr(b) in Ids(b);
    assert c.In? ==> Ptr(c.sib) == 0 || Ptr(c.sib) in PathIds(c);
  }

  lemma RotateReadable(key: nat -> int, mem: Mem, root: nat, c: Path,
                       d: Side, x: nat, xr: bool, a: Tree, y: nat, yr: bool, b: Tree, e: Tree)
    requires At(key, mem, root, c, Before(d, x, xr, a, y, yr, b, e))
    ensures RotateReads(mem, c, d, x, xr, a, y, yr, b, e)
  {
    RotateNodesDiffer(key, mem, root, c, d, x, xr, a, y, yr, b, e);
    MkHolds(mem, d, x, xr, a, Mk(d, y, yr, b, e), PathPtr(c));
    MkHolds(mem, d, y, yr, b, e, x);
  }

  ghost predicate InnerCells(mem: Mem, mem': Mem, x: nat, cx: Cell, y: nat, cy: Cell, k: nat) {
    && x in mem' && mem'[x] == cx && y in mem' && mem'[y] == cy
    && (k != 0 ==> k in mem && k in mem' && mem'[k] == mem[k].(parent := x))
    && (forall i :: i in mem && i !in {x, y, k} ==> i in mem' && mem'[i] == mem[i])
  }

  /** The second half of a rotation: the link from above leads to `y`, and `x` is below `y`. */
  lemma RotateOuter(mem: Mem, root: nat, inner: Mem, mem': Mem, root': nat, c: Path,
                    d: Side, x: nat, xr: bool, a: Tree, y: nat, yr: bool, b: Tree, e: Tree)
    requires RotateReads(mem, c, d, x, xr, a, y, yr, b, e)
    requires InnerCells(mem, inner, x, MkCell(d, Ptr(a), Ptr(b), PathPtr(c), xr),
                        y, MkCell(d, Ptr(b), Ptr(e), PathPtr(c), yr), Ptr(b))
    requires root' == if c.Top? then y else root
    requires var linked := if c.Top? then inner
                           else inner[c.id := MkCell(c.side, y, Ptr(c.sib), PathPtr(c.up), c.red)];
             mem' == linked[y := MkCell(d, x, Ptr(e), PathPtr(c), yr)][x := MkCell(d, Ptr(a), Ptr(b), y, xr)]
    ensures RotatedCells(mem, root, mem', root', c, d, x, xr, a, y, yr, b, e)
  {
  }

  /** A red pair after its rotation. */
  lemma PairTurned(d: Side, p: nat, x: Tree, sib: Tree)
    requires Red(x) && Sound(x) && Sound(sib) && !Red(sib) && BlackHeight(x) == BlackHeight(sib)
    ensures var x', b := Mk(d, p, true, sib, Near(d, x)), Near(Other(d), x);
            OutsidePair(x', b, BlackHeight(x)) && Ids(x') + {x.id} + Ids(b) == Ids(x) + {p} + Ids(sib)
  {
    MkSound(d, p, true, sib, Near(d, x));
    MkOf(d, x);
    MkOf(d, Mk(d, p, true, sib, Near(d, x)));
  }

  /** The sibling with its near nephew turned up. */
  lemma TurnedNephew(d: Side, tmp: nat, n: Tree, f: Tree)
    requires Sound(n) && Sound(f) && Red(n) && !Red(f) && BlackHeight(n) == BlackHeight(f)
    ensures var n', f' := Near(d, n), Mk(d, tmp, true, Near(Other(d), n), f);
            FarRed(n', f', BlackHeight(n)) && Ids(n') + {n.id} + Ids(f') == Ids(n) + {tmp} + Ids(f)
  {
    MkSound(d, tmp, true, Near(Other(d), n), f);
    MkOf(d, n);
    MkOf(d, Mk(d, tmp, true, Near(Other(d), n), f));
  }

  /** The same memory, looked at from the sibling. */
  lemma Sideways(key: nat -> int, mem: Mem, root: nat, c: Path, x: Tree)
    requires c.In?
    ensures At(key, mem, root, c, x) <==> At(key, mem, root, In(Other(c.side), c.id, c.red, x, c.up), c.sib)
  {
    AtUp(key, mem, root, c, x);
    AtUp(key, mem, root, In(Other(c.side), c.id, c.red, x, c.up), c.sib);
  }

  class Head {
    var key: nat -> int
    var root: nat
    var mem: Mem
    ghost var t: Tree

    /** The idiom that makes the link to `old` lead to `new`. */
    method Relink(parent: nat, was: nat, now: nat, ghost c: Path)
      requires parent == PathPtr(c)
      requires c.In? ==> && c.id != 0 && c.id in mem && Ptr(c.sib) != was
                         && mem[c.id] == MkCell(c.side, was, Ptr(c.sib), PathPtr(c.up), c.red)
      modifies this`root, this`mem
      ensures if c.Top? then root == now && mem == old(mem)
              else root == old(root) &&
                   mem == old(mem)[c.id := MkCell(c.side, now, Ptr(c.sib), PathPtr(c.up), c.red)]
    {
      if parent != 0 {
        if mem[parent].left == was {
          mem := mem[parent := mem[parent].(left := now)];
        } else {
          mem := mem[parent := mem[parent].(right := now)];
        }
      } else {
        root := now;
      }
    }

    method SetParent(n: nat, p: nat)
      requires n in mem
      modifies this`mem
      ensures mem == old(mem)[n := old(mem)[n].(parent := p)]
    {
      mem := mem[n := mem[n].(parent := p)];
    }

    method SetKid(n: nat, d: Side, k: nat)
      requires n in mem
      modifies this`mem
      ensures mem == old(mem)[n := WithKid(old(mem)[n], d, k)]
    {
      mem := mem[n := WithKid(mem[n], d, k)];
    }

    method RotateLinks(d: Side, elm: nat, ghost c: Path, ghost xr: bool, ghost a: Tree,
                       ghost y: nat, ghost yr: bool, ghost b: Tree, ghost e: Tree)
      requires RotateReads(mem, c, d, elm, xr, a, y, yr, b, e)
      modifies this`root, this`mem
      ensures RotatedCells(old(mem), old(root), mem, root, c, d, elm, xr, a, y, yr, b, e)
    {
      var tmp := RotateInner(d, elm);
      ghost var inner := mem;
      RotateRest(d, elm, tmp, c, xr, Ptr(a), yr, Ptr(b), Ptr(e));
      RotateOuter(old(mem), old(root), inner, mem, root, c, d, elm, xr, a, y, yr, b, e);
    }

    method RotateRest(d: Side, elm: nat, tmp: nat, ghost c: Path,
                      ghost xr: bool, ghost a: nat, ghost yr: bool, ghost b: nat, ghost e: nat)
      requires elm in mem && mem[elm] == MkCell(d, a, b, PathPtr(c), xr)
      requires tmp in mem && mem[tmp] == MkCell(d, b, e, PathPtr(c), yr)
      requires elm != tmp && PathPtr(c) != elm && PathPtr(c) != tmp
      requires c.In? ==> && c.id != 0 && c.id in mem && Ptr(c.sib) != elm
                         && mem[c.id] == MkCell(c.side, elm, Ptr(c.sib), PathPtr(c.up), c.red)
      modifies this`root, this`mem
      ensures root == if c.Top? then tmp else old(root)
      ensures var linked := if c.Top? then old(mem)
                            else old(mem)[c.id := MkCell(c.side, tmp, Ptr(c.sib), PathPtr(c.up), c.red)];
              mem == linked[tmp := MkCell(d, elm, e, PathPtr(c), yr)][elm := MkCell(d, a, b, tmp, xr)]
    {
      Relink(mem[elm].parent, elm, tmp, c);
      SetKid(tmp, d, elm);
      SetParent(elm, tmp);
    }

    /** The first half of a rotation: `elm` takes over the inner child of `tmp`. */
    method RotateInner(d: Side, elm: nat) returns (tmp: nat)
      requires elm in mem && elm != 0
      requires var y := Kid(mem[elm], Other(d)); y in mem && y != elm && Kid(mem[y], d) !in {elm, y}
      requires var k := Kid(mem[Kid(mem[elm], Other(d))], d); k != 0 ==> k in mem
      modifies this`mem
      ensures tmp == Kid(old(mem)[elm], Other(d))
      ensures var k := Kid(old(mem)[tmp], d);
              InnerCells(old(mem), mem, elm, WithKid(old(mem)[elm], Other(d), k),
                         tmp, old(mem)[tmp].(parent := old(mem)[elm].parent), k)
    {
      tmp := Kid(mem[elm], Other(d));
      var k := Kid(mem[tmp], d);
      SetKid(elm, Other(d), k);
      if k != 0 {
        SetParent(k, elm);
      }
      SetParent(tmp, mem[elm].parent);
    }

    /** `RB_ROTATE_LEFT`, and its mirror image. */
    method Rotate(d: Side, elm: nat, ghost c: Path, ghost xr: bool, ghost a: Tree,
                  ghost y: nat, ghost yr: bool, ghost b: Tree, ghost e: Tree)
      requires At(key, mem, root, c, Before(d, elm, xr, a, y, yr, b, e))
      modifies this`root, this`mem
      ensures At(key, mem, root, c, After(d, elm, xr, a, y, yr, b, e))
    {
      RotateReadable(key, mem, root, c, d, elm, xr, a, y, yr, b, e);
      RotateLinks(d, elm, c, xr, a, y, yr, b, e);
      RotateHolds(key, old(mem), old(root), mem, root, c, d, elm, xr, a, y, yr, b, e);
    }

    method Paint(n: nat, red: bool, ghost c: Path, ghost x: Tree)
      requires At(key, mem, root, c, x) && x.Node? && x.id == n
      modifies this`mem
      ensures At(key, mem, root, c, x.(red := red))
    {
      PaintHolds(key, mem, root, c, x, red);
      mem := mem[n := mem[n].(red := red)];
    }

    /** Paints the child on the side `d`, looked at from its parent. */
    method PaintKid(n: nat, red: bool, ghost d: Side, ghost c: Path, ghost id: nat, ghost r: bool,
                    ghost near: Tree, ghost far: Tree)
      requires At(key, mem, root, c, Mk(d, id, r, near, far)) && near.Node? && near.id == n
      modifies this`mem
      ensures At(key, mem, root, c, Mk(d, id, r, near.(red := red), far))
    {
      AtUp(key, mem, root, In(d, id, r, far, c), near);
      Paint(n, red, In(d, id, r, far, c), near);
      AtUp(key, mem, root, In(d, id, r, far, c), near.(red := red));
    }

    /** The uncle is red: the colours of the family change, and the grandparent is next. */
    method RedUncle(parent: nat, gparent: nat, uncle: nat, ghost d: Side, ghost p: Tree, ghost u: Tree, ghost up: Path)
      requires p.Node? && parent == p.id && u.Node? && uncle == u.id
      requires At(key, mem, root, up, Mk(d, gparent, false, p, u))
      modifies this`mem
      ensures At(key, mem, root, up, Mk(d, gparent, true, Blacken(p), Blacken(u)))
    {
      PaintKid(uncle, false, Other(d), up, gparent, false, u, p);
      PaintKid(parent, false, d, up, gparent, false, p, Blacken(u));
      Paint(gparent, true, up, Mk(d, gparent, false, Blacken(p), Blacken(u)));
    }

    /** The uncle is black, and the red pair is on the outside: one rotation ends the loop. */
    method BlackUncle(parent: nat, gparent: nat, d: Side, ghost x: Tree, ghost b: Tree, ghost u: Tree, ghost up: Path)
      requires At(key, mem, root, up, Mk(d, gparent, false, Mk(d, parent, true, x, b), u))
      modifies this`root, this`mem
      ensures At(key, mem, root, up, Mk(d, parent, false, x, Mk(d, gparent, true, b, u)))
    {
      PaintKid(parent, false, d, up, gparent, false, Mk(d, parent, true, x, b), u);
      Paint(gparent, true, up, Mk(d, gparent, false, Mk(d, parent, false, x, b), u));
      Rotate(Other(d), gparent, up, true, u, parent, false, b, x);
    }

    /** The rotation of an inside red pair. */
    method TurnPair(elm: nat, parent: nat, side: Side, ghost up: Path, ghost x: Tree, ghost sib: Tree)
      returns (ghost x': Tree, ghost b: Tree)
      requires At(key, mem, root, up, Mk(side, parent, true, sib, x)) && Red(x) && Sound(x) && elm == x.id
      requires Sound(sib) && !Red(sib) && BlackHeight(x) == BlackHeight(sib)
      modifies this`root, this`mem
      ensures At(key, mem, root, up, Mk(side, elm, true, x', b)) && parent == Ptr(x')
      ensures OutsidePair(x', b, BlackHeight(x)) && Ids(x') + {elm} + Ids(b) == Ids(x) + {parent} + Ids(sib)
    {
      MkOf(side, x);
      x', b := Mk(side, parent, true, sib, Near(side, x)), Near(Other(side), x);
      Rotate(side, parent, up, true, sib, elm, true, Near(side, x), b);
      PairTurned(side, parent, x, sib);
    }

    /** An inside red pair is turned outside. */
    method TurnOutside(elm0: nat, parent0: nat, side: Side, ghost c: Path, ghost x: Tree)
      returns (elm: nat, parent: nat, ghost x': Tree, ghost b: Tree)
      requires At(key, mem, root, c, x) && Red(x) && Sound(x) && elm0 == x.id
      requires c.In? && c.red && parent0 == c.id && c.up.In? && side == c.up.side
      requires Sound(c.sib) && !Red(c.sib) && BlackHeight(x) == BlackHeight(c.sib)
      modifies this`root, this`mem
      ensures At(key, mem, root, c.up, Mk(side, parent, true, x', b)) && elm == Ptr(x')
      ensures OutsidePair(x', b, BlackHeight(x)) && Ids(x') + {parent} + Ids(b) == Ids(x) + {c.id} + Ids(c.sib)
    {
      Reads(key, mem, root, c, x);
      AtUp(key, mem, root, c, x);
      if Kid(mem[parent0], Other(side)) == elm0 {
        x', b := TurnPair(elm0, parent0, side, c.up, x, c.sib);
        elm, parent := parent0, elm0;
      } else {
        elm, parent, x', b := elm0, parent0, x, c.sib;
      }
    }

    /** The uncle is black. */
    method BlackUncleStep(elm0: nat, parent0: nat, gparent: nat, side: Side, ghost c: Path, ghost x: Tree)
      returns (elm: nat, ghost c': Path, ghost x': Tree)
      requires Climbing(key, mem, root, c, x, AllIds(c, x)) && elm0 == x.id
      requires c.In? && c.red && parent0 == c.id && gparent == c.up.id && side == c.up.side && !Red(c.up.sib)
      modifies this`root, this`mem
      ensures Climbing(key, mem, root, c', x', AllIds(c, x)) && elm == x'.id
      ensures Depth(c') < Depth(c)
    {
      RedParent(c, BlackHeight(x));
      ghost var parent, b;
      elm, parent, x', b := BlackUncleMoves(elm0, parent0, gparent, side, c, x);
      c' := In(side, parent, false, Mk(side, gparent, true, b, c.up.sib), c.up.up);
      ClimbsNoFurther(c, x, parent, x', b);
    }

    method BlackUncleMoves(elm0: nat, parent0: nat, gparent: nat, side: Side, ghost c: Path, ghost x: Tree)
      returns (elm: nat, ghost parent: nat, ghost x': Tree, ghost b: Tree)
      requires At(key, mem, root, c, x) && Red(x) && Sound(x) && elm0 == x.id
      requires c.In? && c.red && parent0 == c.id && c.up.In? && !c.up.red && gparent == c.up.id && side == c.up.side
      requires Sound(c.sib) && !Red(c.sib) && BlackHeight(x) == BlackHeight(c.sib)
      modifies this`root, this`mem
      ensures At(key, mem, root, In(side, parent, false, Mk(side, gparent, true, b, c.up.sib), c.up.up), x')
      ensures elm == Ptr(x') && OutsidePair(x', b, BlackHeight(x))
      ensures Ids(x') + {parent} + Ids(b) == Ids(x) + {c.id} + Ids(c.sib)
    {
      var p;
      elm, p, x', b := TurnOutside(elm0, parent0, side, c, x);
      parent := p;
      AtUp(key, mem, root, c.up, Mk(side, p, true, x', b));
      BlackUncle(p, gparent, side, x', b, c.up.sib, c.up.up);
      AtUp(key, mem, root, In(side, p, false, Mk(side, gparent, true, b, c.up.sib), c.up.up), x');
    }

    method RedUncleStep(parent: nat, gparent: nat, uncle: nat, ghost c: Path, ghost x: Tree)
      returns (elm: nat, ghost c': Path, ghost x': Tree)
      requires Climbing(key, mem, root, c, x, AllIds(c, x)) && c.In? && c.red && parent == c.id && gparent == c.up.id
      requires Red(c.up.sib) && uncle == c.up.sib.id
      modifies this`mem
      ensures Climbing(key, mem, root, c', x', AllIds(c, x)) && elm == x'.id
      ensures Depth(c') < Depth(c)
    {
      RedParent(c, BlackHeight(x));
      ghost var p := Mk(c.side, c.id, true, x, c.sib);
      AtUp(key, mem, root, c, x);
      AtUp(key, mem, root, c.up, p);
      RedUncle(parent, gparent, uncle, c.up.side, p, c.up.sib, c.up.up);
      elm, c', x' := gparent, c.up.up, Mk(c.up.side, gparent, true, Blacken(p), Blacken(c.up.sib));
      MkSound(c.side, c.id, false, x, c.sib);
      RedUncleSound(c.up.side, gparent, p, c.up.sib, c.up.up);
      AllIdsUp(c, x);
      AllIdsUp(c.up, p);
    }

    /** One turn of the loop. */
    method InsertStep(elm0: nat, ghost c: Path, ghost x: Tree) returns (elm: nat, ghost c': Path, ghost x': Tree)
      requires Climbing(key, mem, root, c, x, AllIds(c, x)) && elm0 == x.id && c.In? && c.red
      modifies this`root, this`mem
      ensures Climbing(key, mem, root, c', x', AllIds(c, x)) && elm == x'.id
      ensures Depth(c') < Depth(c)
    {
      RedParent(c, BlackHeight(x));
      ghost var p := Mk(c.side, c.id, true, x, c.sib);
      Reads(key, mem, root, c, x);
      AtUp(key, mem, root, c, x);
      Reads(key, mem, root, c.up, p);
      var parent := mem[elm0].parent;
      var gparent := mem[parent].parent;
      var side := if parent == mem[gparent].left then L else R;
      var tmp := Kid(mem[gparent], Other(side));
      if tmp != 0 && mem[tmp].red {
        elm, c', x' := RedUncleStep(parent, gparent, tmp, c, x);
      } else {
        elm, c', x' := BlackUncleStep(elm0, parent, gparent, side, c, x);
      }
    }

    /** `RB_INSERT_COLOR` */
    method InsertColor(elm0: nat, ghost c0: Path, ghost x0: Tree) returns (ghost t': Tree)
      requires Climbing(key, mem, root, c0, x0, AllIds(c0, x0)) && elm0 == x0.id
      modifies this`root, this`mem
      ensures At(key, mem, root, Top, t') && RedBlack(t') && Ids(t') == AllIds(c0, x0)
    {
      var elm := elm0;
      ghost var c, x := c0, x0;
      Reads(key, mem, root, c, x);
      while mem[elm].parent != 0 && mem[mem[elm].parent].red
        invariant Climbing(key, mem, root, c, x, AllIds(c0, x0)) && elm == x.id
        invariant elm in mem && mem[elm].parent == PathPtr(c)
        invariant c.In? ==> c.id in mem && mem[c.id].red == c.red && c.id != 0
        decreases Depth(c)
      {
        elm, c, x := InsertStep(elm, c, x);
        Reads(key, mem, root, c, x);
      }
      ghost var w := Plug(c, x);
      InsertEnds(c, x);
      AtTop(key, mem, root, c, x);
      Paint(root, false, Top, w);
      t' := Blacken(w);
    }

    ghost predicate Valid()
      reads this
    {
      At(key, mem, root, Top, t) && RedBlack(t)
    }

    /** Links a new node below `parent`. */
    method Attach(elm: nat, parent: nat, comp: int, ghost c: Path)
      requires At(key, mem, root, c, Leaf) && elm != 0 && elm !in PathIds(c) && Admits(key, c, key(elm))
      requires parent == PathPtr(c) && (c.In? ==> (comp < 0 <==> c.side == L))
      modifies this`root, this`mem
      ensures At(key, mem, root, c, Node(elm, true, Leaf, Leaf))
    {
      Reads(key, mem, root, c, Leaf);
      mem := mem[elm := Cell(0, 0, parent, true)];
      if parent != 0 {
        SetKid(parent, if comp < 0 then L else R, elm);
      } else {
        root := elm;
      }
      AttachHolds(key, old(mem), old(root), c, elm, mem, root);
    }

    /** The search of `RB_INSERT`: an equal node, or the place of a new one. */
    method Locate(k: int) returns (hit: nat, parent: nat, comp: int, ghost c: Path)
      requires Valid()
      ensures hit != 0 ==> hit in Ids(t) && key(hit) == k
      ensures hit == 0 ==> Looking(key, mem, root, c, Leaf, t, k) && parent == PathPtr(c)
      ensures hit == 0 && c.In? ==> (comp < 0 <==> c.side == L)
    {
      hit, parent, comp := root, 0, 0;
      c := Top;
      ghost var x := t;
      while hit != 0
        invariant Looking(key, mem, root, c, x, t, k) && hit == Ptr(x)
        invariant parent == PathPtr(c) && (c.In? ==> (comp < 0 <==> c.side == L))
        decreases x
      {
        parent := hit;
        comp := k - key(parent);
        if comp < 0 {
          LookDown(key, mem, root, c, x, t, k, L);
          hit := mem[hit].left;
          c, x := Down(L, c, x), x.left;
        } else if comp > 0 {
          LookDown(key, mem, root, c, x, t, k, R);
          hit := mem[hit].right;
          c, x := Down(R, c, x), x.right;
        } else {
          return;
        }
      }
      HoldsIds(mem, x, PathPtr(c));
    }

    /** `RB_INSERT` */
    method Insert(elm: nat) returns (r: nat)
      requires Valid() && elm != 0
      modifies this`root, this`mem, this`t
      ensures Valid() && (elm in old(Ids(t)) ==> r == elm)
      ensures r != 0 ==> r in Ids(t) && key(r) == key(elm) && t == old(t) && mem == old(mem) && root == old(root)
      ensures r == 0 ==> Ids(t) == old(Ids(t)) + {elm} && forall i :: i in old(Ids(t)) ==> key(i) != key(elm)
    {
      var hit, parent, comp, c := Locate(key(elm));
      if hit != 0 {
        if elm in Ids(t) {
          KeysDiffer(key, t, hit, elm);
        }
        return hit;
      }
      NotFound(key, mem, root, c, t, key(elm));
      Attach(elm, parent, comp, c);
      t := InsertColor(elm, c, Node(elm, true, Leaf, Leaf));
      return 0;
    }

    /** `RB_FIND` */
    method Find(k: int) returns (r: nat)
      requires Valid()
      ensures r != 0 ==> r in Ids(t) && key(r) == k
      ensures r == 0 ==> forall i :: i in Ids(t) ==> key(i) != k
    {
      r := root;
      ghost var c, x := Top, t;
      while r != 0
        invariant Looking(key, mem, root, c, x, t, k) && r == Ptr(x)
        decreases x
      {
        var comp := k - key(r);
        if comp < 0 {
          LookDown(key, mem, root, c, x, t, k, L);
          r := mem[r].left;
          c, x := Down(L, c, x), x.left;
        } else if comp > 0 {
          LookDown(key, mem, root, c, x, t, k, R);
          r := mem[r].right;
          c, x := Down(R, c, x), x.right;
        } else {
          return;
        }
      }
      HoldsIds(mem, x, PathPtr(c));
      NotFound(key, mem, root, c, t, k);
    }

    /** The sibling is red: it is turned up, and the new sibling is black. */
    method RedSibling(parent: nat, tmp: nat, side: Side, ghost c: Path, ghost x: Tree)
      requires Falling(key, mem, root, c, x, AllIds(c, x)) && c.In? && Red(c.sib)
      requires parent == c.id && tmp == c.sib.id && side == c.side
      modifies this`root, this`mem
      ensures Falling(key, mem, root, Turned(c, c.sib), x, AllIds(c, x)) && !Red(Turned(c, c.sib).sib)
    {
      ghost var y := c.sib;
      ghost var n, f := Near(side, y), Near(Other(side), y);
      Sibling(c, BlackHeight(x));
      AtUp(key, mem, root, c, x);
      PaintKid(tmp, false, Other(side), c.up, parent, false, y, x);
      Paint(parent, true, c.up, Mk(side, parent, false, x, Blacken(y)));
      Rotate(side, parent, c.up, true, x, tmp, false, n, f);
      AtUp(key, mem, root, In(side, tmp, false, f, c.up), Mk(side, parent, true, x, n));
      AtUp(key, mem, root, Turned(c, y), x);
      TurnedSound(c, BlackHeight(x));
      TurnedIds(c, x);
    }

    method BlackNephews(tmp: nat, ghost c: Path, ghost x: Tree) returns (ghost x': Tree)
      requires Falling(key, mem, root, c, x, AllIds(c, x)) && !Red(x) && c.In?
      requires c.sib.Node? && !Red(c.sib) && !Red(c.sib.left) && !Red(c.sib.right) && tmp == c.sib.id
      modifies this`mem
      ensures Falling(key, mem, root, c.up, x', AllIds(c, x)) && x'.Node? && x'.id == c.id && x'.red == c.red
    {
      AtUp(key, mem, root, c, x);
      PaintKid(tmp, true, Other(c.side), c.up, c.id, c.red, c.sib, x);
      x' := Mk(c.side, c.id, c.red, x, c.sib.(red := true));
      BlackNephewsSound(c, x);
    }

    /** Repaints a near nephew and its parent, ready to be turned. */
    method PaintNephew(tmp: nat, side: Side, ghost place: Path, ghost n: Tree, ghost f: Tree) returns (oleft: nat)
      requires At(key, mem, root, place, Mk(side, tmp, false, n, f)) && n.Node?
      modifies this`mem
      ensures At(key, mem, root, place, Mk(side, tmp, true, Blacken(n), f)) && oleft == n.id
    {
      ghost var y := Mk(side, tmp, false, n, f);
      Reads(key, mem, root, place, y);
      Descend(key, mem, root, place, y, side);
      Reads(key, mem, root, Down(side, place, y), n);
      oleft := Kid(mem[tmp], side);
      if oleft != 0 {
        PaintKid(oleft, false, side, place, tmp, false, n, f);
      }
      Paint(tmp, true, place, Mk(side, tmp, false, Blacken(n), f));
    }

    /** Only the near nephew is red: it is turned up to be the sibling, with a red far child. */
    method TurnNephew(tmp: nat, side: Side, ghost place: Path, ghost n: Tree, ghost f: Tree)
      returns (ghost n': Tree, ghost f': Tree)
      requires At(key, mem, root, place, Mk(side, tmp, false, n, f))
      requires Sound(n) && Sound(f) && Red(n) && !Red(f) && BlackHeight(n) == BlackHeight(f)
      modifies this`root, this`mem
      ensures At(key, mem, root, place, Mk(side, n.id, false, n', f')) && FarRed(n', f', BlackHeight(n))
      ensures Ids(n') + {n.id} + Ids(f') == Ids(n) + {tmp} + Ids(f)
    {
      var oleft := PaintNephew(tmp, side, place, n, f);
      ghost var b := Near(Other(side), n);
      n', f' := Near(side, n), Mk(side, tmp, true, b, f);
      Rotate(Other(side), tmp, place, true, f, oleft, false, b, n');
      TurnedNephew(side, tmp, n, f);
    }

    /** The last rotation: the far nephew becomes the missing black node. */
    method FarNephew(parent: nat, tmp: nat, side: Side, ghost pr: bool, ghost x: Tree, ghost n: Tree, ghost f: Tree,
                     ghost up: Path)
      requires At(key, mem, root, up, Mk(side, parent, pr, x, Mk(side, tmp, false, n, f))) && f.Node?
      modifies this`root, this`mem
      ensures At(key, mem, root, up, Mk(side, tmp, pr, Mk(side, parent, false, x, n), Blacken(f)))
    {
      ghost var y := Mk(side, tmp, false, n, f);
      ghost var place := In(Other(side), parent, pr, x, up);
      Reads(key, mem, root, up, Mk(side, parent, pr, x, y));
      PaintKid(tmp, mem[parent].red, Other(side), up, parent, pr, y, x);
      Paint(parent, false, up, Mk(side, parent, pr, x, y.(red := pr)));
      ghost var place' := In(Other(side), parent, false, x, up);
      AtUp(key, mem, root, place', y.(red := pr));
      PaintFar(tmp, side, place', pr, n, f);
      AtUp(key, mem, root, place', Mk(side, tmp, pr, n, Blacken(f)));
      Rotate(side, parent, up, false, x, tmp, pr, n, Blacken(f));
    }

    method PaintFar(tmp: nat, side: Side, ghost place: Path, ghost r: bool, ghost n: Tree, ghost f: Tree)
      requires At(key, mem, root, place, Mk(side, tmp, r, n, f)) && f.Node?
      modifies this`mem
      ensures At(key, mem, root, place, Mk(side, tmp, r, n, Blacken(f)))
    {
      ghost var y := Mk(side, tmp, r, n, f);
      Reads(key, mem, root, place, y);
      Descend(key, mem, root, place, y, Other(side));
      Reads(key, mem, root, Down(Other(side), place, y), f);
      var far := Kid(mem[tmp], Other(side));
      if far != 0 {
        PaintKid(far, false, Other(side), place, tmp, r, f, n);
      }
    }

    /** A nephew is red, and the sibling black: the far nephew is made red. */
    method MakeFarRed(parent: nat, tmp0: nat, side: Side, ghost place: Path, ghost n0: Tree, ghost f0: Tree)
      returns (tmp: nat, ghost n: Tree, ghost f: Tree)
      requires At(key, mem, root, place, Mk(side, tmp0, false, n0, f0))
      requires Sound(n0) && Sound(f0) && BlackHeight(n0) == BlackHeight(f0) && (Red(n0) || Red(f0))
      requires place.In? && parent == place.id && place.side == Other(side)
      modifies this`root, this`mem
      ensures At(key, mem, root, place, Mk(side, tmp, false, n, f)) && FarRed(n, f, BlackHeight(n0))
      ensures Ids(n) + {tmp} + Ids(f) == Ids(n0) + {tmp0} + Ids(f0)
    {
      ghost var y := Mk(side, tmp0, false, n0, f0);
      Reads(key, mem, root, place, y);
      Descend(key, mem, root, place, y, Other(side));
      Reads(key, mem, root, Down(Other(side), place, y), f0);
      tmp, n, f := tmp0, n0, f0;
      var far := Kid(mem[tmp0], Other(side));
      if far == 0 || !mem[far].red {
        n, f := TurnNephew(tmp0, side, place, n0, f0);
        Reads(key, mem, root, place, Mk(side, n0.id, false, n, f));
        tmp := Kid(mem[parent], Other(side));
      }
    }

    method MakeSiblingFarRed(parent: nat, tmp0: nat, side: Side, ghost c: Path, ghost x: Tree)
      returns (tmp: nat, ghost n: Tree, ghost f: Tree)
      requires At(key, mem, root, c, x) && c.In? && c.sib.Node? && !Red(c.sib) && (Red(c.sib.left) || Red(c.sib.right))
      requires Sound(c.sib.left) && Sound(c.sib.right) && BlackHeight(c.sib.left) == BlackHeight(c.sib.right)
      requires parent == c.id && tmp0 == c.sib.id && side == c.side
      modifies this`root, this`mem
      ensures At(key, mem, root, c.up, Mk(side, parent, c.red, x, Mk(side, tmp, false, n, f)))
      ensures FarRed(n, f, BlackHeight(c.sib.left))
      ensures Ids(n) + {tmp} + Ids(f) == Ids(c.sib.left) + {c.sib.id} + Ids(c.sib.right)
    {
      ghost var place := In(Other(side), c.id, c.red, x, c.up);
      Sideways(key, mem, root, c, x);
      MkOf(side, c.sib);
      tmp, n, f := MakeFarRed(parent, tmp0, side, place, Near(side, c.sib), Near(Other(side), c.sib));
      AtUp(key, mem, root, place, Mk(side, tmp, false, n, f));
    }

    /** This ends the removal. */
    method RedNephew(parent: nat, tmp0: nat, side: Side, ghost c: Path, ghost x: Tree) returns (ghost x': Tree)
      requires Falling(key, mem, root, c, x, AllIds(c, x)) && !Red(x) && c.In? && c.sib.Node? && !Red(c.sib)
      requires parent == c.id && tmp0 == c.sib.id && side == c.side && (Red(c.sib.left) || Red(c.sib.right))
      modifies this`root, this`mem
      ensures At(key, mem, root, c.up, x') && Fits(c.up, x') && AllIds(c.up, x') == AllIds(c, x)
    {
      Sibling(c, BlackHeight(x));
      var tmp, n, f := MakeSiblingFarRed(parent, tmp0, side, c, x);
      FarNephew(parent, tmp, side, c.red, x, n, f, c.up);
      x' := Mk(side, tmp, c.red, Mk(side, parent, false, x, n), Blacken(f));
      Repaired(c, x, tmp, n, f);
    }

    /** The sibling is black: the second half of a turn of the loop. */
    method BlackSibling(parent0: nat, tmp: nat, side: Side, ghost c: Path, ghost x: Tree)
      returns (stop: bool, elm: nat, parent: nat, ghost x': Tree)
      requires Falling(key, mem, root, c, x, AllIds(c, x)) && !Red(x) && c.In? && c.sib.Node? && !Red(c.sib)
      requires parent0 == c.id && tmp == c.sib.id && side == c.side
      modifies this`root, this`mem
      ensures stop ==> At(key, mem, root, c.up, x') && Fits(c.up, x') && AllIds(c.up, x') == AllIds(c, x)
      ensures !stop ==> Falling(key, mem, root, c.up, x', AllIds(c, x)) && elm == Ptr(x') && parent == PathPtr(c.up)
      ensures !stop ==> x'.Node? && x'.red == c.red
    {
      ReadsNephews(key, mem, root, c, x);
      var l, r := mem[tmp].left, mem[tmp].right;
      if (l == 0 || !mem[l].red) && (r == 0 || !mem[r].red) {
        x' := BlackNephews(tmp, c, x);
        stop, elm := false, parent0;
        Reads(key, mem, root, c.up, x');
        parent := mem[elm].parent;
      } else {
        x' := RedNephew(parent0, tmp, side, c, x);
        stop, elm, parent := true, root, parent0;
      }
    }

    /** One turn of the loop. */
    method RemoveStep(parent0: nat, elm0: nat, ghost c0: Path, ghost x: Tree)
      returns (stop: bool, elm: nat, parent: nat, ghost c': Path, ghost x': Tree)
      requires Falling(key, mem, root, c0, x, AllIds(c0, x)) && !Red(x) && c0.In?
      requires elm0 == Ptr(x) && parent0 == c0.id
      modifies this`root, this`mem
      ensures stop ==> At(key, mem, root, c', x') && Fits(c', x') && AllIds(c', x') == AllIds(c0, x)
      ensures !stop ==> Falling(key, mem, root, c', x', AllIds(c0, x)) && elm == Ptr(x') && parent == PathPtr(c')
      ensures !stop ==> StepsLeft(c', x') < StepsLeft(c0, x)
    {
      Sibling(c0, BlackHeight(x));
      Reads(key, mem, root, c0, x);
      var side := if mem[parent0].left == elm0 then L else R;
      var tmp := Kid(mem[parent0], Other(side));
      ghost var c := c0;
      if mem[tmp].red {
        RedSibling(parent0, tmp, side, c0, x);
        c := Turned(c0, c0.sib);
        Sibling(c, BlackHeight(x));
        Reads(key, mem, root, c, x);
        tmp := Kid(mem[parent0], Other(side));
      }
      stop, elm, parent, x' := BlackSibling(parent0, tmp, side, c, x);
      c' := c.up;
    }

    /** The node the loop has come to, if any, is made black. */
    method PaintLast(elm: nat, ghost c: Path, ghost x: Tree)
      requires At(key, mem, root, c, x) && elm == Ptr(x)
      modifies this`mem
      ensures At(key, mem, root, Top, Plug(c, Blacken(x)))
    {
      Reads(key, mem, root, c, x);
      if elm != 0 {
        Paint(elm, false, c, x);
      }
      AtTop(key, mem, root, c, Blacken(x));
    }

    /** After the loop. */
    method EndRemove(stop: bool, elm: nat, ghost c: Path, ghost x: Tree, ghost ids: set<nat>) returns (ghost t': Tree)
      requires stop ==> At(key, mem, root, c, x) && Fits(c, x) && AllIds(c, x) == ids && elm == root
      requires !stop ==> Falling(key, mem, root, c, x, ids) && elm == Ptr(x) && (Red(x) || c.Top?)
      modifies this`mem
      ensures At(key, mem, root, Top, t') && RedBlack(t') && Ids(t') == ids
    {
      if stop {
        RemoveStops(key, mem, root, c, x);
        PaintLast(elm, Top, Plug(c, x));
        t' := Plug(Top, Blacken(Plug(c, x)));
      } else {
        RemoveEnds(c, x);
        PaintLast(elm, c, x);
        t' := Plug(c, Blacken(x));
      }
    }

    /** `RB_REMOVE_COLOR` */
    method RemoveColor(parent0: nat, elm0: nat, ghost c0: Path, ghost x0: Tree) returns (ghost t': Tree)
      requires Falling(key, mem, root, c0, x0, AllIds(c0, x0)) && elm0 == Ptr(x0) && parent0 == PathPtr(c0)
      modifies this`root, this`mem
      ensures At(key, mem, root, Top, t') && RedBlack(t') && Ids(t') == AllIds(c0, x0)
    {
      var parent, elm, stop := parent0, elm0, false;
      ghost var c, x := c0, x0;
      Reads(key, mem, root, c, x);
      while (elm == 0 || !mem[elm].red) && elm != root
        invariant Falling(key, mem, root, c, x, AllIds(c0, x0)) && elm == Ptr(x) && parent == PathPtr(c) && !stop
        invariant x.Node? ==> elm != 0 && elm in mem && mem[elm].red == x.red
        invariant root == elm <==> c.Top?
        decreases StepsLeft(c, x)
      {
        stop, elm, parent, c, x := RemoveStep(parent, elm, c, x);
        if stop {
          elm := root;
          break;
        }
        Reads(key, mem, root, c, x);
      }
      t' := EndRemove(stop, elm, c, x, AllIds(c0, x0));
    }

    /** Takes a node with at most one child out: the child takes its place. */
    method Splice(elm: nat, child: nat, parent: nat, ghost c: Path, ghost d: Side, ghost red: bool, ghost k: Tree)
      requires At(key, mem, root, c, Mk(d, elm, red, Leaf, k)) && child == Ptr(k) && parent == PathPtr(c)
      modifies this`root, this`mem
      ensures At(key, mem, root, c, k)
    {
      SpliceReads(key, mem, root, c, d, elm, red, k);
      if child != 0 {
        SetParent(child, parent);
      }
      Relink(parent, elm, child, c);
      SpliceHolds(key, old(mem), old(root), mem, root, c, d, elm, red, k);
    }

    /** Copies the node `o` to `elm` and turns all links to `elm`. */
    method ReplaceLinks(elm: nat, o: nat, ghost c: Path, ghost red: bool, ghost l: Tree, ghost r: Tree)
      requires l.Node? && o in mem && mem[o] == Cell(l.id, Ptr(r), PathPtr(c), red) && l.id in mem
      requires elm !in {o, l.id, Ptr(r), PathPtr(c)} && o !in {l.id, Ptr(r), PathPtr(c)}
      requires l.id != Ptr(r) && l.id != PathPtr(c)
      requires r.Node? ==> r.id in mem && r.id != 0 && r.id != PathPtr(c)
      requires c.In? ==> c.id in mem && mem[c.id] == MkCell(c.side, o, Ptr(c.sib), PathPtr(c.up), c.red) && c.id != 0
      requires c.In? ==> Ptr(c.sib) != o
      modifies this`root, this`mem
      ensures ReplacedCells(old(mem), old(root), mem, root, c, elm, red, l, r)
    {
      mem := mem[elm := mem[o]];
      Relink(mem[o].parent, o, elm, c);
      SetParent(mem[o].left, elm);
      if mem[o].right != 0 {
        SetParent(mem[o].right, elm);
      }
    }

    /** Puts the node `elm` where `o` is. */
    method Replace(elm: nat, o: nat, ghost c: Path, ghost red: bool, ghost l: Tree, ghost r: Tree)
      requires At(key, mem, root, c, Node(o, red, l, r)) && l.Node? && elm != 0 && elm !in AllIds(c, Node(o, red, l, r))
      requires Ordered(key, Node(elm, red, l, r)) && Admits(key, c, key(elm))
      modifies this`root, this`mem
      ensures At(key, mem, root, c, Node(elm, red, l, r))
    {
      ReplaceReads(key, mem, root, c, o, red, l, r);
      ReplaceApart(elm, c, o, red, l, r);
      ReplaceLinks(elm, o, c, red, l, r);
      ReplaceHolds(key, old(mem), old(root), mem, root, c, elm, o, red, l, r);
    }

    /** The end of `RB_REMOVE`, at the label `color`. */
    method Recolour(red: bool, parent: nat, child: nat, ghost c: Path, ghost k: Tree) returns (ghost t': Tree)
      requires At(key, mem, root, c, k) && parent == PathPtr(c) && child == Ptr(k)
      requires Leaves(red, c, k)
      modifies this`root, this`mem
      ensures At(key, mem, root, Top, t') && RedBlack(t') && Ids(t') == AllIds(c, k)
    {
      if !red {
        t' := RemoveColor(parent, child, c, k);
      } else {
        t' := Plug(c, k);
        FitsTop(c, k);
        PlugIds(c, k);
        AtTop(key, mem, root, c, k);
      }
    }

    /** The node has at most one child. */
    method RemoveOne(elm: nat, child: nat, ghost c: Path, ghost d: Side, ghost red: bool, ghost k: Tree)
      returns (ghost t': Tree)
      requires At(key, mem, root, c, Mk(d, elm, red, Leaf, k)) && Fits(c, Mk(d, elm, red, Leaf, k)) && child == Ptr(k)
      modifies this`root, this`mem
      ensures At(key, mem, root, Top, t') && RedBlack(t') && Ids(t') == AllIds(c, Mk(d, elm, red, Leaf, k)) - {elm}
    {
      ghost var x := Mk(d, elm, red, Leaf, k);
      Reads(key, mem, root, c, x);
      SplicedIds(key, mem, root, c, d, elm, red, k);
      SpliceFits(c, d, elm, red, k);
      var parent, color := mem[elm].parent, mem[elm].red;
      Splice(elm, child, parent, c, d, red, k);
      t' := Recolour(color, parent, child, c, k);
    }

    /** The leftmost node below `o` on the right; `cr` is the way to it. */
    method Successor(o: nat, ghost c: Path, ghost x: Tree) returns (elm: nat, ghost cr: Path, ghost y: Tree)
      requires At(key, mem, root, c, x) && Fits(c, x) && x.Node? && x.id == o && x.right.Node?
      ensures AllLeft(cr) && y.Node? && y.left.Leaf? && elm == y.id
      ensures var full := Compose(cr, Down(R, c, x));
              At(key, mem, root, full, y) && Fits(full, y) && AllIds(full, y) == AllIds(c, x)
    {
      ghost var base := Down(R, c, x);
      Reads(key, mem, root, c, x);
      Descend(key, mem, root, c, x, R);
      elm := mem[o].right;
      cr, y := Top, x.right;
      GoLeft(key, mem, root, cr, base, y, AllIds(c, x));
      while mem[elm].left != 0
        invariant GoingLeft(key, mem, root, cr, base, y, AllIds(c, x)) && elm == y.id
        invariant elm in mem && mem[elm].left == Ptr(y.left) && (Ptr(y.left) == 0 <==> y.left.Leaf?)
        invariant y.left.Node? ==> GoingLeft(key, mem, root, Down(L, cr, y), base, y.left, AllIds(c, x))
        decreases y
      {
        elm := mem[elm].left;
        cr, y := Down(L, cr, y), y.left;
        GoLeft(key, mem, root, cr, base, y, AllIds(c, x));
      }
    }

    /** The node has two children: its successor is taken out and put in its place. */
    method RemoveTwo(o: nat, ghost c: Path, ghost x: Tree) returns (ghost t': Tree)
      requires At(key, mem, root, c, x) && Fits(c, x) && x.Node? && x.id == o && x.left.Node? && x.right.Node?
      modifies this`root, this`mem
      ensures At(key, mem, root, Top, t') && RedBlack(t') && Ids(t') == AllIds(c, x) - {o}
    {
      var elm, cr, y := Successor(o, c, x);
      var color, parent, child := MoveSuccessor(elm, o, c, x, cr, y);
      t' := Recolour(color, parent, child, Compose(cr, In(R, elm, x.red, x.left, c)), y.right);
    }

    /** Takes a node without a left child out, and says what was read of it. */
    method CutNode(elm: nat, ghost c: Path, ghost y: Tree) returns (color: bool, parent: nat, child: nat)
      requires At(key, mem, root, c, y) && Fits(c, y) && y.Node? && y.id == elm && y.left.Leaf?
      modifies this`root, this`mem
      ensures At(key, mem, root, c, y.right) && parent == PathPtr(c) && child == Ptr(y.right)
      ensures Leaves(color, c, y.right)
    {
      Reads(key, mem, root, c, y);
      child, parent, color := mem[elm].right, mem[elm].parent, mem[elm].red;
      assert y == Mk(L, elm, y.red, Leaf, y.right);
      SpliceFits(c, L, elm, y.red, y.right);
      Splice(elm, child, parent, c, L, y.red, y.right);
    }

    /** Takes the successor `elm` out of its place and puts it in the place of `o`. */
    method MoveSuccessor(elm: nat, o: nat, ghost c: Path, ghost x: Tree, ghost cr: Path, ghost y: Tree)
      returns (color: bool, parent: nat, child: nat)
      requires x.Node? && x.id == o && x.left.Node? && AllLeft(cr) && y.Node? && y.left.Leaf? && elm == y.id
      requires At(key, mem, root, Compose(cr, Down(R, c, x)), y) && Fits(Compose(cr, Down(R, c, x)), y)
      modifies this`root, this`mem
      ensures var full := Compose(cr, In(R, elm, x.red, x.left, c));
              && At(key, mem, root, full, y.right) && parent == PathPtr(full) && child == Ptr(y.right)
              && Leaves(color, full, y.right) && AllIds(full, y.right) == AllIds(Compose(cr, Down(R, c, x)), y) - {o}
    {
      SuccessorFacts(key, mem, root, Compose(cr, Down(R, c, x)), y, x.red);
      color, parent, child := CutNode(elm, Compose(cr, Down(R, c, x)), y);
      SwapIn(elm, o, c, x, cr, y.right);
      if parent == o {
        parent := elm;
      }
      SameColours(cr, Down(R, c, x), In(R, elm, x.red, x.left, c), color, y.right);
    }

    /** The successor takes the place of the removed node. */
    method SwapIn(elm: nat, o: nat, ghost c: Path, ghost x: Tree, ghost cr: Path, ghost k: Tree)
      requires x.Node? && x.id == o && x.left.Node? && elm != 0
      requires At(key, mem, root, Compose(cr, Down(R, c, x)), k)
      requires AllLeft(cr) && Above(key, Ids(k), key(elm)) && Admits(key, Compose(cr, Down(R, c, x)), key(elm))
      modifies this`root, this`mem
      ensures At(key, mem, root, Compose(cr, In(R, elm, x.red, x.left, c)), k)
      ensures AllIds(Compose(cr, In(R, elm, x.red, x.left, c)), k)
           == AllIds(Compose(cr, Down(R, c, x)), Node(elm, x.red, Leaf, k)) - {o}
      ensures cr.In? ==> cr.id != o
    {
      AboveWay(key, mem, root, cr, o, x.red, x.left, c, k);
      SuccessorFits(key, cr, o, x.red, x.left, c, elm, k);
      SuccessorApart(key, cr, o, x.red, x.left, c, elm, k);
      SwapIds(key, cr, o, x.red, x.left, c, elm, k);
      Replace(elm, o, c, x.red, x.left, Plug(cr, k));
      AboveWay(key, mem, root, cr, elm, x.red, x.left, c, k);
    }

    /** `RB_REMOVE`; the node stays allocated, and is returned. */
    method Remove(o: nat) returns (r: nat)
      requires Valid() && o in Ids(t)
      modifies this`root, this`mem, this`t
      ensures Valid() && Ids(t) == old(Ids(t)) - {o} && r == o
    {
      ghost var c, x := WayTo(key, mem, root, Top, t, o);
      assert AllIds(Top, t) == Ids(t);
      ReadsKids(key, mem, root, c, x);
      if mem[o].left == 0 {
        t := RemoveOne(o, mem[o].right, c, L, x.red, x.right);
      } else if mem[o].right == 0 {
        t := RemoveOne(o, mem[o].left, c, R, x.red, x.left);
      } else {
        t := RemoveTwo(o, c, x);
      }
      return o;
    }

    /** `RB_MINMAX`: the least node for the left side, the greatest for the right. */
    method MinMax(d: Side) returns (r: nat)
      requires Valid()
      ensures if t.Leaf? then r == 0 else Extreme(key, Ids(t), r, d)
    {
      var tmp := root;
      r := 0;
      ghost var c, x := Top, t;
      while tmp != 0
        invariant At(key, mem, root, c, x) && AllIds(c, x) == Ids(t) && tmp == Ptr(x) && r == PathPtr(c)
        invariant c.In? ==> c.side == d && Extreme(key, PathIds(c), c.id, d)
        invariant c.Top? ==> x == t
        decreases x
      {
        Reads(key, mem, root, c, x);
        Descend(key, mem, root, c, x, d);
        ExtremeDown(key, mem, root, c, x, d);
        r := tmp;
        tmp := Kid(mem[tmp], d);
        c, x := Down(d, c, x), Near(d, x);
      }
      HoldsIds(mem, x, PathPtr(c));
    }

    /** The owner of a node changes its key while the node is in no tree, as `_lthread_sched_sleep` does. */
    method SetKey(n: nat, k: int)
      requires Valid() && n !in Ids(t)
      modifies this`key
      ensures Valid() && key(n) == k && forall i :: i != n ==> key(i) == old(key)(i)
    {
      var was := key;
      key := (i: nat) => if i == n then k else was(i);
      OrderedSame(was, key, t);
    }

    /** `RB_INIT` */
    constructor (key: nat -> int)
      ensures Valid() && Ids(t) == {} && this.key == key
    {
      this.key := key;
      root, mem, t := 0, map[], Leaf;
    }
  }
}
