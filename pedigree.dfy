/**
 * The pedigree tree of a horse: the recursive expansion of its ancestry
 * into rows labelled with a generation and a position string, and the
 * loop that reshapes those rows into a nested sire/dam tree.
 *
 * A position is '1' for the horse itself; a sire appends '1' and a dam
 * appends '2' to its child's position.
 */
module Pedigree {
  import opened Wrappers
  import opened Records

  /** The deepest generation supported; a larger depth is lowered to it. */
  const MaxDepth := 3

  // ------------------------------------------------------ the expansion

  /** One row of the recursive expansion. */
  datatype PedigreeRow = PedigreeRow(
    horseId: Option<string>,
    horseName: Option<string>,
    sireId: Option<string>,
    sireName: Option<string>,
    damId: Option<string>,
    damName: Option<string>,
    generation: int,
    position: string)

  /** The record a LEFT JOIN finds for `id`: all NULL when there is none. */
  function Record(horses: map<string, Horse>, id: Option<string>): Horse {
    if id.Some? && id.value in horses then horses[id.value] else Horse(None, None, None, None, None)
  }

  /** The row of the horse itself: generation 1, position '1'. */
  function RootRow(horses: map<string, Horse>, horseId: string): PedigreeRow
    requires horseId in horses
  {
    var h := horses[horseId];
    PedigreeRow(Some(horseId), h.name, h.sireId, h.sireName, h.damId, h.damName, 1, "1")
  }

  /**
   * The row of a parent of `p`: its id and name as `p` records them, its
   * own parents from its record, one generation up, the position extended.
   */
  function ChildRow(horses: map<string, Horse>, p: PedigreeRow, isSire: bool): PedigreeRow {
    var id := if isSire then p.sireId else p.damId;
    var name := if isSire then p.sireName else p.damName;
    var rec := Record(horses, id);
    PedigreeRow(id, name, rec.sireId, rec.sireName, rec.damId, rec.damName,
                p.generation + 1, p.position + (if isSire then "1" else "2"))
  }

  /** The expansion continues to a parent below `depth` generations whose id is known. */
  predicate Expands(p: PedigreeRow, isSire: bool, depth: int) {
    p.generation < depth && Known(if isSire then p.sireId else p.damId)
  }

  /** The parent rows of one row: sire first, then dam. */
  function Kids(horses: map<string, Horse>, p: PedigreeRow, depth: int): seq<PedigreeRow> {
    (if Expands(p, true, depth) then [ChildRow(horses, p, true)] else []) +
    (if Expands(p, false, depth) then [ChildRow(horses, p, false)] else [])
  }

  /** The next generation of rows, parent pairs in the order of their children. */
  function Children(horses: map<string, Horse>, level: seq<PedigreeRow>, depth: int): seq<PedigreeRow> {
    if level == [] then [] else Kids(horses, level[0], depth) + Children(horses, level[1..], depth)
  }

  /** Generation `g` followed by every later generation the expansion reaches. */
  function Layers(horses: map<string, Horse>, level: seq<PedigreeRow>, g: int, depth: int): seq<PedigreeRow>
    decreases depth - g
  {
    if g >= depth then level else level + Layers(horses, Children(horses, level, depth), g + 1, depth)
  }

  /** The expansion, ordered by generation and then position; empty for an unknown horse. */
  function PedigreeRows(horses: map<string, Horse>, horseId: string, depth: int): seq<PedigreeRow> {
    if horseId in horses then Layers(horses, [RootRow(horses, horseId)], 1, depth) else []
  }

  // ----------------------------------------------------------- the tree

  /** A node of the pedigree tree; a parent that is absent has no entry. */
  datatype Tree = Node(id: Option<string>, name: Option<string>, sire: Option<Tree>, dam: Option<Tree>)

  /** A placeholder: an id and a name with no parent entries. */
  function Stub(id: Option<string>, name: Option<string>): Tree {
    Node(id, name, None, None)
  }

  /** The horse itself, and every node below `depth` generations, carries parent entries. */
  predicate HasParents(generation: int, depth: int) {
    generation == 1 || generation < depth
  }

  /** The node a row contributes: its id and name, and placeholder parents where it has parents. */
  function NodeOf(row: PedigreeRow, depth: int): Tree {
    var parents := HasParents(row.generation, depth);
    Node(row.horseId, row.horseName,
         if parents then Some(Stub(row.sireId, row.sireName)) else None,
         if parents then Some(Stub(row.damId, row.damName)) else None)
  }

  /**
   * The tree rooted at `row`, built directly: the parents the expansion
   * reaches are subtrees, the others placeholders.
   */
  function Ancestor(horses: map<string, Horse>, row: PedigreeRow, depth: int): Tree
    decreases depth - row.generation
  {
    var parents := HasParents(row.generation, depth);
    Node(row.horseId, row.horseName,
         if !parents then None
         else if Expands(row, true, depth) then Some(Ancestor(horses, ChildRow(horses, row, true), depth))
         else Some(Stub(row.sireId, row.sireName)),
         if !parents then None
         else if Expands(row, false, depth) then Some(Ancestor(horses, ChildRow(horses, row, false), depth))
         else Some(Stub(row.damId, row.damName)))
  }

  /** The pedigree of a horse to `depth` generations; none for an unknown horse. */
  function PedigreeTree(horses: map<string, Horse>, horseId: string, depth: int): (tree: Option<Tree>)
    ensures tree.Some? <==> horseId in horses
    ensures tree.Some? ==> tree.value.id == Some(horseId) && tree.value.sire.Some? && tree.value.dam.Some?
  {
    if horseId in horses then Some(Ancestor(horses, RootRow(horses, horseId), depth)) else None
  }

  // -------------------------------------------------------- the reshape

  /** The subtree reached by following `path` ('1' to the sire, anything else to the dam). */
  function Descend(t: Tree, path: string): Option<Tree> {
    if path == [] then Some(t)
    else
      var next := if path[0] == '1' then t.sire else t.dam;
      if next.None? then None else Descend(next.value, path[1..])
  }

  /** `t` with the sire (or dam) entry of the node at `path` set to `node`. */
  function SetChild(t: Tree, path: string, isSire: bool, node: Tree): Tree {
    if path == [] then
      if isSire then t.(sire := Some(node)) else t.(dam := Some(node))
    else if path[0] == '1' then
      if t.sire.None? then t else t.(sire := Some(SetChild(t.sire.value, path[1..], isSire, node)))
    else
      if t.dam.None? then t else t.(dam := Some(SetChild(t.dam.value, path[1..], isSire, node)))
  }

  /** The state of the reshape: nothing yet, a tree, or a failed walk. */
  datatype Shape = Empty | Built(tree: Tree) | Broken

  /** The path from the root to the parent node of a position: its middle characters. */
  function ParentPath(position: string): string {
    if |position| <= 1 then "" else position[1..|position| - 1]
  }

  /**
   * One row of the reshape: the horse's own row starts the tree; any
   * other row is attached under the node its position leads to, and a
   * walk through a missing entry fails.
   */
  function Step(s: Shape, row: PedigreeRow, depth: int): Shape {
    if s.Broken? then Broken
    else if row.generation == 1 then Built(NodeOf(row, depth))
    else if s.Empty? || |row.position| == 0 then Broken
    else
      var path := ParentPath(row.position);
      var isSire := row.position[|row.position| - 1] == '1';
      if Descend(s.tree, path).None? then Broken
      else Built(SetChild(s.tree, path, isSire, NodeOf(row, depth)))
  }

  /** The reshape of a sequence of rows, one step per row. */
  function Fold(s: Shape, rows: seq<PedigreeRow>, depth: int): Shape
    decreases |rows|
  {
    if rows == [] then s else Fold(Step(s, rows[0], depth), rows[1..], depth)
  }

  /** Folding a concatenation folds the first part, then the second. */
  lemma {:induction false} FoldAppend(s: Shape, a: seq<PedigreeRow>, b: seq<PedigreeRow>, depth: int)
    ensures Fold(s, a + b, depth) == Fold(Fold(s, a, depth), b, depth)
    decreases |a|
  {
    if a != [] {
      assert (a + b)[0] == a[0];
      assert (a + b)[1..] == a[1..] + b;
      FoldAppend(Step(s, a[0], depth), a[1..], b, depth);
    } else {
      assert a + b == b;
    }
  }

  /** A failed reshape stays failed. */
  lemma {:induction false} BrokenStays(rows: seq<PedigreeRow>, depth: int)
    ensures Fold(Broken, rows, depth) == Broken
    decreases |rows|
  {
    if rows != [] {
      BrokenStays(rows[1..], depth);
    }
  }

  /** A walk that fails part-way fails for every longer path. */
  lemma {:induction false} DescendPrefix(t: Tree, path: string, k: nat)
    requires k <= |path|
    ensures Descend(t, path[..k]).None? ==> Descend(t, path).None?
    ensures Descend(t, path[..k]).Some? ==> Descend(t, path) == Descend(Descend(t, path[..k]).value, path[k..])
  {
    if k > 0 {
      var next := if path[0] == '1' then t.sire else t.dam;
      assert path[..k][0] == path[0];
      assert path[..k][1..] == path[1..][..k - 1];
      if next.Some? {
        DescendPrefix(next.value, path[1..], k - 1);
        assert path[1..][k - 1..] == path[k..];
      }
    }
  }

  /**
   * The reshape loop: rows in order; the horse's row starts the tree,
   * every other row walks from the root to its parent node and is set as
   * that node's sire or dam. The state is `Broken` after a failed walk.
   */
  method Reshape(rows: seq<PedigreeRow>, depth: int) returns (s: Shape)
    ensures s == Fold(Empty, rows, depth)
  {
    s := Empty;
    var i := 0;
    while i < |rows|
      invariant 0 <= i <= |rows|
      invariant Fold(s, rows[i..], depth) == Fold(Empty, rows, depth)
    {
      var row := rows[i];
      ghost var before := s;
      if s.Broken? {
      } else if row.generation == 1 {
        s := Built(NodeOf(row, depth));
      } else if s.Empty? || |row.position| == 0 {
        s := Broken;
      } else {
        var pos := row.position;
        var path := ParentPath(pos);
        var isSire := pos[|pos| - 1] == '1';
        var current := s.tree;
        var k := 0;
        var found := true;
        while k < |path| && found
          invariant 0 <= k <= |path|
          invariant found ==> Descend(s.tree, path[..k]) == Some(current)
          invariant !found ==> Descend(s.tree, path).None?
          decreases |path| - k + (if found then 1 else 0)
        {
          var next := if path[k] == '1' then current.sire else current.dam;
          DescendPrefix(s.tree, path[..k + 1], k);
          assert path[..k + 1][..k] == path[..k];
          assert path[..k + 1][k..] == [path[k]];
          assert Descend(current, [path[k]]) == (if next.None? then None else Some(next.value));
          DescendPrefix(s.tree, path, k + 1);
          if next.None? {
            found := false;
          } else {
            current := next.value;
            k := k + 1;
          }
        }
        if found {
          assert path[..k] == path;
          s := Built(SetChild(s.tree, path, isSire, NodeOf(row, depth)));
        } else {
          s := Broken;
        }
      }
      assert s == Step(before, row, depth);
      assert rows[i..][1..] == rows[i + 1..];
      i := i + 1;
    }
  }

  /** What the reshape returns: the tree, or `{}` when there is none. */
  function ShapeResult(s: Shape): Option<Tree> {
    if s.Built? then Some(s.tree) else None
  }

  /**
   * The pedigree tree of a horse: the depth is lowered to `MaxDepth`, the
   * expansion is fetched and reshaped; `{}` (here `None`) when the query
   * fails or finds no rows.
   */
  method GetPedigreeTree(db: Db, horseId: string, depth: int := 3) returns (tree: Option<Tree>)
    ensures tree == if PedigreeQuery in db.failing then None
                    else PedigreeTree(db.horses, horseId, if depth > MaxDepth then MaxDepth else depth)
  {
    var d := depth;
    if d > MaxDepth {
      d := MaxDepth;
    }
    if PedigreeQuery in db.failing {
      return None;
    }
    var rows := PedigreeRows(db.horses, horseId, d);
    ReshapeBuildsTree(db.horses, horseId, d);
    if |rows| == 0 {
      return None;
    }
    var s := Reshape(rows, d);
    tree := ShapeResult(s);
  }
  // ---------------------------------------- correctness of the reshape

  /** `rest` leads from `r` through parents the expansion reaches, one position character per step. */
  ghost predicate Chain(horses: map<string, Horse>, r: PedigreeRow, rest: string, depth: int)
    decreases |rest|
  {
    rest == [] ||
    ((rest[0] == '1' || rest[0] == '2') && Expands(r, rest[0] == '1', depth) &&
     Chain(horses, ChildRow(horses, r, rest[0] == '1'), rest[1..], depth))
  }

  /** The row reached from `r` by following `rest`. */
  ghost function Descendant(horses: map<string, Horse>, r: PedigreeRow, rest: string): PedigreeRow
    decreases |rest|
  {
    if rest == [] then r else Descendant(horses, ChildRow(horses, r, rest[0] == '1'), rest[1..])
  }

  /** Along a chain, position and generation grow by one character and one generation per step. */
  lemma {:induction false} DescendantShape(horses: map<string, Horse>, r: PedigreeRow, rest: string, depth: int)
    requires Chain(horses, r, rest, depth)
    ensures Descendant(horses, r, rest).position == r.position + rest
    ensures Descendant(horses, r, rest).generation == r.generation + |rest|
    decreases |rest|
  {
    if rest != [] {
      var k := ChildRow(horses, r, rest[0] == '1');
      assert k.position == r.position + [rest[0]];
      DescendantShape(horses, k, rest[1..], depth);
      assert r.position + [rest[0]] + rest[1..] == r.position + rest;
    }
  }

  /** Extending a chain by one step. */
  lemma {:induction false} ChainSnoc(horses: map<string, Horse>, r: PedigreeRow, rest: string, c: char, depth: int)
    ensures Descendant(horses, r, rest + [c]) == ChildRow(horses, Descendant(horses, r, rest), c == '1')
    ensures Chain(horses, r, rest + [c], depth) <==>
      Chain(horses, r, rest, depth) && (c == '1' || c == '2') && Expands(Descendant(horses, r, rest), c == '1', depth)
    decreases |rest|
  {
    if rest == [] {
      assert [c][1..] == [];
    } else {
      assert (rest + [c])[0] == rest[0];
      assert (rest + [c])[1..] == rest[1..] + [c];
      ChainSnoc(horses, ChildRow(horses, r, rest[0] == '1'), rest[1..], c, depth);
    }
  }

  /** Whether the row of a parent has been attached: generations up to `g` and the positions in `done`. */
  ghost predicate Attached(row: PedigreeRow, g: int, done: set<string>) {
    row.generation <= g || row.position in done
  }

  /**
   * The tree the reshape holds part-way: like `Ancestor`, but a parent is
   * a subtree only once its row has been attached, and a placeholder before.
   */
  ghost function Partial(horses: map<string, Horse>, row: PedigreeRow, depth: int, g: int, done: set<string>): Tree
    decreases depth - row.generation
  {
    var parents := HasParents(row.generation, depth);
    var s := ChildRow(horses, row, true);
    var d := ChildRow(horses, row, false);
    Node(row.horseId, row.horseName,
         if !parents then None
         else if Expands(row, true, depth) && Attached(s, g, done) then Some(Partial(horses, s, depth, g, done))
         else Some(Stub(row.sireId, row.sireName)),
         if !parents then None
         else if Expands(row, false, depth) && Attached(d, g, done) then Some(Partial(horses, d, depth, g, done))
         else Some(Stub(row.damId, row.damName)))
  }

  /** Two part-way trees agree when the same reachable parents are attached in both. */
  lemma {:induction false} PartialAgree(horses: map<string, Horse>, r: PedigreeRow, depth: int,
                                        g1: int, a: set<string>, g2: int, b: set<string>)
    requires forall rest :: Chain(horses, r, rest, depth) && |rest| > 0 ==>
      (Attached(Descendant(horses, r, rest), g1, a) <==> Attached(Descendant(horses, r, rest), g2, b))
    ensures Partial(horses, r, depth, g1, a) == Partial(horses, r, depth, g2, b)
    decreases depth - r.generation
  {
    if HasParents(r.generation, depth) {
      forall isSire: bool | Expands(r, isSire, depth)
        ensures Attached(ChildRow(horses, r, isSire), g1, a) <==> Attached(ChildRow(horses, r, isSire), g2, b)
        ensures Partial(horses, ChildRow(horses, r, isSire), depth, g1, a) == Partial(horses, ChildRow(horses, r, isSire), depth, g2, b)
      {
        var c := if isSire then '1' else '2';
        var k := ChildRow(horses, r, isSire);
        assert [c][1..] == [];
        assert Chain(horses, r, [c], depth);
        assert Descendant(horses, r, [c]) == k;
        forall rest | Chain(horses, k, rest, depth) && |rest| > 0
          ensures Attached(Descendant(horses, k, rest), g1, a) <==> Attached(Descendant(horses, k, rest), g2, b)
        {
          var full := [c] + rest;
          assert full[0] == c && full[1..] == rest;
          assert Chain(horses, r, full, depth);
          assert Descendant(horses, r, full) == Descendant(horses, k, rest);
        }
        PartialAgree(horses, k, depth, g1, a, g2, b);
      }
    }
  }

  /** Once every generation up to `depth` is attached, the part-way tree is the pedigree tree. */
  lemma {:induction false} PartialComplete(horses: map<string, Horse>, r: PedigreeRow, depth: int, g: int, done: set<string>)
    requires g >= depth
    ensures Partial(horses, r, depth, g, done) == Ancestor(horses, r, depth)
    decreases depth - r.generation
  {
    if HasParents(r.generation, depth) {
      if Expands(r, true, depth) {
        PartialComplete(horses, ChildRow(horses, r, true), depth, g, done);
      }
      if Expands(r, false, depth) {
        PartialComplete(horses, ChildRow(horses, r, false), depth, g, done);
      }
    }
  }
  /**
   * Attaching a row never changes the other parent's side: nothing under
   * it has a position that branches off towards `c` at `r`.
   */
  lemma OtherSideAgree(horses: map<string, Horse>, r: PedigreeRow, c: char, depth: int, g: int, done: set<string>, q: string)
    requires c == '1' || c == '2'
    requires |q| > |r.position| && q[|r.position|] == c
    ensures Attached(ChildRow(horses, r, c != '1'), g, done) <==> Attached(ChildRow(horses, r, c != '1'), g, done + {q})
    ensures Partial(horses, ChildRow(horses, r, c != '1'), depth, g, done) == Partial(horses, ChildRow(horses, r, c != '1'), depth, g, done + {q})
  {
    var o := ChildRow(horses, r, c != '1');
    assert o.position[|r.position|] != c;
    forall rest | Chain(horses, o, rest, depth) && |rest| > 0
      ensures Attached(Descendant(horses, o, rest), g, done) <==> Attached(Descendant(horses, o, rest), g, done + {q})
    {
      DescendantShape(horses, o, rest, depth);
      assert Descendant(horses, o, rest).position[|r.position|] == o.position[|r.position|];
    }
    PartialAgree(horses, o, depth, g, done, g, done + {q});
  }

  /** A row just above generation `g`, none of whose parents is attached, stands for its own node. */
  lemma FreshNode(horses: map<string, Horse>, k: PedigreeRow, depth: int, g: int, done: set<string>)
    requires k.generation == g + 1
    requires forall p :: p in done ==> |p| <= |k.position|
    ensures Partial(horses, k, depth, g, done) == NodeOf(k, depth)
  {
    assert !Attached(ChildRow(horses, k, true), g, done);
    assert !Attached(ChildRow(horses, k, false), g, done);
  }

  /**
   * The attachment step: in the part-way tree holding every generation
   * above the row at the end of `rest`, the walk to its parent succeeds,
   * and setting the row's node there attaches exactly that row.
   */
  lemma {:induction false} GraftPartial(horses: map<string, Horse>, r: PedigreeRow, rest: string, depth: int, g: int, done: set<string>)
    requires |rest| >= 1
    requires Chain(horses, r, rest, depth)
    requires g == r.generation + |rest| - 1
    requires forall p :: p in done ==> |p| <= |r.position| + |rest|
    ensures Descend(Partial(horses, r, depth, g, done), rest[..|rest| - 1]).Some?
    ensures SetChild(Partial(horses, r, depth, g, done), rest[..|rest| - 1], rest[|rest| - 1] == '1',
                     NodeOf(Descendant(horses, r, rest), depth))
         == Partial(horses, r, depth, g, done + {Descendant(horses, r, rest).position})
    decreases |rest|
  {
    var c := rest[0];
    var isSire := c == '1';
    var k := ChildRow(horses, r, isSire);
    var q := Descendant(horses, r, rest);
    DescendantShape(horses, r, rest, depth);
    assert q.position[|r.position|] == c;
    OtherSideAgree(horses, r, c, depth, g, done, q.position);
    var t := Partial(horses, r, depth, g, done);
    var path := rest[..|rest| - 1];
    if |rest| == 1 {
      assert q == k;
      assert path == [];
      FreshNode(horses, k, depth, g, done + {q.position});
    } else {
      var rest' := rest[1..];
      assert |k.position| == |r.position| + 1;
      GraftPartial(horses, k, rest', depth, g, done);
      assert path[0] == c && path[1..] == rest'[..|rest'| - 1];
      assert rest[|rest| - 1] == rest'[|rest'| - 1];
      assert t.sire == (if isSire then Some(Partial(horses, k, depth, g, done)) else t.sire);
      assert t.dam == (if !isSire then Some(Partial(horses, k, depth, g, done)) else t.dam);
    }
  }
  /** The positions of a sequence of rows. */
  ghost function Positions(rows: seq<PedigreeRow>): set<string> {
    set r | r in rows :: r.position
  }

  /** The positions of a row followed by more rows. */
  lemma PositionsCons(rows: seq<PedigreeRow>)
    requires rows != []
    ensures Positions(rows) == {rows[0].position} + Positions(rows[1..])
  {
    assert forall r :: r in rows <==> r == rows[0] || r in rows[1..];
  }

  /** A row of generation `g` reached from `root`: the descendant its position names. */
  ghost predicate LayerRow(horses: map<string, Horse>, root: PedigreeRow, x: PedigreeRow, g: int, depth: int) {
    |x.position| == g && g >= 1 && Chain(horses, root, x.position[1..], depth) &&
    x == Descendant(horses, root, x.position[1..])
  }

  /**
   * `level` is generation `g` of the expansion from `root`: each of its
   * rows is the descendant its position names, and every descendant
   * reached in `g - 1` steps is among them.
   */
  ghost predicate IsLayer(horses: map<string, Horse>, root: PedigreeRow, level: seq<PedigreeRow>, g: int, depth: int) {
    g >= 1 &&
    (forall x :: x in level ==> LayerRow(horses, root, x, g, depth)) &&
    (forall rest :: |rest| == g - 1 && Chain(horses, root, rest, depth) ==> Descendant(horses, root, rest) in level)
  }

  /** The rows of the next generation are exactly the reachable parents of this one. */
  lemma {:induction false} ChildrenMembers(horses: map<string, Horse>, level: seq<PedigreeRow>, depth: int)
    ensures forall p, isSire :: p in level && Expands(p, isSire, depth) ==> ChildRow(horses, p, isSire) in Children(horses, level, depth)
    ensures forall x :: x in Children(horses, level, depth) ==>
      exists p, isSire :: p in level && Expands(p, isSire, depth) && x == ChildRow(horses, p, isSire)
    decreases |level|
  {
    if level != [] {
      ChildrenMembers(horses, level[1..], depth);
      assert forall p :: p in level <==> p == level[0] || p in level[1..];
    }
  }

  /** The horse's own row is generation 1. */
  lemma RootLayer(horses: map<string, Horse>, horseId: string, depth: int)
    requires horseId in horses
    ensures IsLayer(horses, RootRow(horses, horseId), [RootRow(horses, horseId)], 1, depth)
  {
    var root := RootRow(horses, horseId);
    assert root.position[1..] == [];
    forall rest | |rest| == 0 && Chain(horses, root, rest, depth)
      ensures Descendant(horses, root, rest) in [root]
    {
      assert rest == [];
    }
  }

  /** One row of the next generation is the descendant its position names. */
  lemma ChildSound(horses: map<string, Horse>, root: PedigreeRow, g: int, depth: int, p: PedigreeRow, isSire: bool)
    requires LayerRow(horses, root, p, g, depth)
    requires Expands(p, isSire, depth)
    ensures LayerRow(horses, root, ChildRow(horses, p, isSire), g + 1, depth)
  {
    var x := ChildRow(horses, p, isSire);
    var c := if isSire then '1' else '2';
    assert x.position[1..] == p.position[1..] + [c];
    ChainSnoc(horses, root, p.position[1..], c, depth);
  }

  /** Every row of the next generation is the descendant its position names. */
  lemma ChildrenSound(horses: map<string, Horse>, root: PedigreeRow, level: seq<PedigreeRow>, g: int, depth: int)
    requires forall x :: x in level ==> LayerRow(horses, root, x, g, depth)
    ensures forall x :: x in Children(horses, level, depth) ==> LayerRow(horses, root, x, g + 1, depth)
  {
    ChildrenMembers(horses, level, depth);
    forall x | x in Children(horses, level, depth)
      ensures LayerRow(horses, root, x, g + 1, depth)
    {
      var p, isSire :| p in level && Expands(p, isSire, depth) && x == ChildRow(horses, p, isSire);
      ChildSound(horses, root, g, depth, p, isSire);
    }
  }

  /** One descendant reached in `g` steps is in the next generation. */
  lemma ChildComplete(horses: map<string, Horse>, root: PedigreeRow, level: seq<PedigreeRow>, g: int, depth: int, rest: string)
    requires IsLayer(horses, root, level, g, depth)
    requires |rest| == g && Chain(horses, root, rest, depth)
    ensures Descendant(horses, root, rest) in Children(horses, level, depth)
  {
    var rest0 := rest[..g - 1];
    var c := rest[g - 1];
    assert rest == rest0 + [c];
    ChainSnoc(horses, root, rest0, c, depth);
    ChildrenMembers(horses, level, depth);
  }

  /** `Children` of generation `g` is generation `g + 1`. */
  lemma ChildrenLayer(horses: map<string, Horse>, root: PedigreeRow, level: seq<PedigreeRow>, g: int, depth: int)
    requires IsLayer(horses, root, level, g, depth)
    ensures IsLayer(horses, root, Children(horses, level, depth), g + 1, depth)
  {
    var next := Children(horses, level, depth);
    ChildrenSound(horses, root, level, g, depth);
    forall rest | |rest| == g && Chain(horses, root, rest, depth)
      ensures Descendant(horses, root, rest) in next
    {
      ChildComplete(horses, root, level, g, depth, rest);
    }
  }
  /** One reshape step on a row of generation `g` attaches that row. */
  lemma LayerRowStep(horses: map<string, Horse>, root: PedigreeRow, x: PedigreeRow, g: int, depth: int, done: set<string>)
    requires root.position == "1" && root.generation == 1 && g >= 2
    requires LayerRow(horses, root, x, g, depth)
    requires forall q :: q in done ==> |q| <= g
    ensures Step(Built(Partial(horses, root, depth, g - 1, done)), x, depth)
         == Built(Partial(horses, root, depth, g - 1, done + {x.position}))
  {
    var rest := x.position[1..];
    DescendantShape(horses, root, rest, depth);
    GraftPartial(horses, root, rest, depth, g - 1, done);
    assert ParentPath(x.position) == rest[..|rest| - 1];
    assert x.position[|x.position| - 1] == rest[|rest| - 1];
  }

  /**
   * Reshaping rows of generation `g`, one by one, attaches each of them
   * to the tree that holds every earlier generation.
   */
  lemma {:induction false} FoldLayerRows(horses: map<string, Horse>, root: PedigreeRow, rows: seq<PedigreeRow>,
                                         g: int, depth: int, done: set<string>)
    requires root.position == "1" && root.generation == 1 && g >= 2
    requires forall x :: x in rows ==> LayerRow(horses, root, x, g, depth)
    requires forall q :: q in done ==> |q| <= g
    ensures Fold(Built(Partial(horses, root, depth, g - 1, done)), rows, depth)
         == Built(Partial(horses, root, depth, g - 1, done + Positions(rows)))
    decreases |rows|
  {
    if rows == [] {
      assert done + Positions(rows) == done;
    } else {
      var x := rows[0];
      LayerRowStep(horses, root, x, g, depth, done);
      PositionsCons(rows);
      assert done + Positions(rows) == done + {x.position} + Positions(rows[1..]);
      FoldLayerRows(horses, root, rows[1..], g, depth, done + {x.position});
    }
  }

  /** A descendant is attached after generation `g` exactly when it is attached up to generation `g`. */
  lemma LayerDoneAt(horses: map<string, Horse>, root: PedigreeRow, level: seq<PedigreeRow>, g: int, depth: int, rest: string)
    requires root.position == "1" && root.generation == 1
    requires IsLayer(horses, root, level, g, depth)
    requires Chain(horses, root, rest, depth)
    ensures Attached(Descendant(horses, root, rest), g - 1, Positions(level)) <==> Attached(Descendant(horses, root, rest), g, {})
  {
    var d := Descendant(horses, root, rest);
    DescendantShape(horses, root, rest, depth);
    if |rest| == g - 1 {
      assert d in level;
    } else if |rest| > g - 1 {
      assert d.position !in Positions(level);
    }
  }

  /** After generation `g`, the attached descendants are those of generations up to `g`. */
  lemma LayerAttached(horses: map<string, Horse>, root: PedigreeRow, level: seq<PedigreeRow>, g: int, depth: int)
    requires root.position == "1" && root.generation == 1
    requires IsLayer(horses, root, level, g, depth)
    ensures forall rest :: Chain(horses, root, rest, depth) && |rest| > 0 ==>
      (Attached(Descendant(horses, root, rest), g - 1, Positions(level)) <==> Attached(Descendant(horses, root, rest), g, {}))
  {
    forall rest | Chain(horses, root, rest, depth) && |rest| > 0
      ensures Attached(Descendant(horses, root, rest), g - 1, Positions(level)) <==> Attached(Descendant(horses, root, rest), g, {})
    {
      LayerDoneAt(horses, root, level, g, depth, rest);
    }
  }

  /** Once a whole generation `g` is attached, the tree holds generations up to `g`. */
  lemma LayerDone(horses: map<string, Horse>, root: PedigreeRow, level: seq<PedigreeRow>, g: int, depth: int)
    requires root.position == "1" && root.generation == 1
    requires IsLayer(horses, root, level, g, depth)
    ensures Partial(horses, root, depth, g - 1, Positions(level)) == Partial(horses, root, depth, g, {})
  {
    var done := Positions(level);
    LayerAttached(horses, root, level, g, depth);
    PartialAgree(horses, root, depth, g - 1, done, g, {});
  }

  /** Reshaping generation `g` and every later one completes the tree of the earlier ones. */
  lemma {:induction false} FoldLayers(horses: map<string, Horse>, root: PedigreeRow, level: seq<PedigreeRow>, g: int, depth: int)
    requires root.position == "1" && root.generation == 1
    requires IsLayer(horses, root, level, g, depth) && g >= 2
    ensures Fold(Built(Partial(horses, root, depth, g - 1, {})), Layers(horses, level, g, depth), depth)
         == Built(Ancestor(horses, root, depth))
    decreases depth - g
  {
    FoldLayerRows(horses, root, level, g, depth, {});
    assert {} + Positions(level) == Positions(level);
    LayerDone(horses, root, level, g, depth);
    if g >= depth {
      PartialComplete(horses, root, depth, g, {});
    } else {
      var next := Children(horses, level, depth);
      FoldAppend(Built(Partial(horses, root, depth, g - 1, {})), level, Layers(horses, next, g + 1, depth), depth);
      ChildrenLayer(horses, root, level, g, depth);
      FoldLayers(horses, root, next, g + 1, depth);
    }
  }

  /**
   * The reshape of the expansion is the pedigree tree, and the expansion
   * is empty exactly for an unknown horse.
   */
  lemma ReshapeBuildsTree(horses: map<string, Horse>, horseId: string, depth: int)
    ensures ShapeResult(Fold(Empty, PedigreeRows(horses, horseId, depth), depth)) == PedigreeTree(horses, horseId, depth)
    ensures PedigreeRows(horses, horseId, depth) == [] <==> horseId !in horses
  {
    if horseId in horses {
      var root := RootRow(horses, horseId);
      var rows := PedigreeRows(horses, horseId, depth);
      assert Fold(Empty, [root], depth) == Built(NodeOf(root, depth));
      if depth <= 1 {
        assert NodeOf(root, depth) == Ancestor(horses, root, depth);
      } else {
        var next := Children(horses, [root], depth);
        assert rows == [root] + Layers(horses, next, 2, depth);
        FoldAppend(Empty, [root], Layers(horses, next, 2, depth), depth);
        assert NodeOf(root, depth) == Partial(horses, root, depth, 1, {});
        RootLayer(horses, horseId, depth);
        ChildrenLayer(horses, root, [root], 1, depth);
        FoldLayers(horses, root, next, 2, depth);
      }
    }
  }
  // ------------------------------------------- shape of the expansion

  /** Every row of the expansion from generation `g` on is the descendant its position names. */
  lemma {:induction false} LayersMembers(horses: map<string, Horse>, root: PedigreeRow, level: seq<PedigreeRow>, g: int, depth: int)
    requires forall x :: x in level ==> LayerRow(horses, root, x, g, depth)
    ensures forall x :: x in Layers(horses, level, g, depth) ==> |x.position| >= g && LayerRow(horses, root, x, |x.position|, depth)
    decreases depth - g
  {
    if g < depth {
      var next := Children(horses, level, depth);
      ChildrenSound(horses, root, level, g, depth);
      LayersMembers(horses, root, next, g + 1, depth);
      var later := Layers(horses, next, g + 1, depth);
      forall x | x in level + later
        ensures |x.position| >= g && LayerRow(horses, root, x, |x.position|, depth)
      {
        if x !in level {
          assert x in later;
        }
      }
    }
  }

  /** The row at the end of a chain lies within `depth` generations and has a known id. */
  lemma ChainEnd(horses: map<string, Horse>, r: PedigreeRow, rest: string, depth: int)
    requires Chain(horses, r, rest, depth) && |rest| > 0
    ensures Descendant(horses, r, rest).generation <= depth
    ensures Known(Descendant(horses, r, rest).horseId)
  {
    var rest0 := rest[..|rest| - 1];
    var c := rest[|rest| - 1];
    assert rest == rest0 + [c];
    ChainSnoc(horses, r, rest0, c, depth);
    DescendantShape(horses, r, rest0, depth);
  }

  /**
   * The rows of the expansion: the horse's own row comes first with
   * position '1' and generation 1; every position starts with '1' and is
   * as long as its generation, at most `depth` below the horse; every
   * other row has a known id.
   */
  lemma ExpansionShape(horses: map<string, Horse>, horseId: string, depth: int)
    requires horseId in horses
    ensures PedigreeRows(horses, horseId, depth) != []
    ensures PedigreeRows(horses, horseId, depth)[0] == RootRow(horses, horseId)
    ensures forall x :: x in PedigreeRows(horses, horseId, depth) ==>
      1 <= x.generation && |x.position| == x.generation && x.position[0] == '1' &&
      (x.generation == 1 || x.generation <= depth) &&
      (x.generation == 1 <==> x.position == "1") &&
      (x.generation > 1 ==> Known(x.horseId))
  {
    var root := RootRow(horses, horseId);
    var rows := PedigreeRows(horses, horseId, depth);
    RootLayer(horses, horseId, depth);
    LayersMembers(horses, root, [root], 1, depth);
    forall x | x in rows
      ensures 1 <= x.generation && |x.position| == x.generation && x.position[0] == '1' &&
        (x.generation == 1 || x.generation <= depth) &&
        (x.generation == 1 <==> x.position == "1") &&
        (x.generation > 1 ==> Known(x.horseId))
    {
      var rest := x.position[1..];
      DescendantShape(horses, root, rest, depth);
      assert x.position == "1" + rest;
      if |rest| > 0 {
        ChainEnd(horses, root, rest, depth);
      }
    }
  }

  /** Number of node levels of a tree, a leaf being one. */
  function Height(t: Tree): nat {
    1 + Max(if t.sire.Some? then Height(t.sire.value) else 0,
            if t.dam.Some? then Height(t.dam.value) else 0)
  }

  function Max(a: nat, b: nat): nat {
    if a < b then b else a
  }

  /** The height bound of the tree rooted at a row of generation `g`. */
  function HeightBound(g: int, depth: int): int {
    if g < depth then depth - g + 1 else if g == 1 then 2 else 1
  }

  /** Below generation `depth` a subtree is one level per remaining generation, plus its placeholders. */
  lemma {:induction false} AncestorHeight(horses: map<string, Horse>, row: PedigreeRow, depth: int)
    requires row.generation >= 1
    ensures Height(Ancestor(horses, row, depth)) <= HeightBound(row.generation, depth)
    decreases depth - row.generation
  {
    if Expands(row, true, depth) {
      AncestorHeight(horses, ChildRow(horses, row, true), depth);
    }
    if Expands(row, false, depth) {
      AncestorHeight(horses, ChildRow(horses, row, false), depth);
    }
  }

  /** The pedigree tree has at most `max(depth, 2)` levels, placeholders included. */
  lemma PedigreeTreeHeight(horses: map<string, Horse>, horseId: string, depth: int)
    requires horseId in horses
    ensures PedigreeTree(horses, horseId, depth).Some?
    ensures Height(PedigreeTree(horses, horseId, depth).value) <= Max(if depth < 0 then 0 else depth, 2)
  {
    AncestorHeight(horses, RootRow(horses, horseId), depth);
  }
  // ------------------------------------------- order of the expansion

  /** Strict lexicographic order of two positions of the same length. */
  predicate PositionBefore(a: string, b: string)
    decreases |a|
  {
    |a| > 0 && |b| > 0 && (a[0] < b[0] || (a[0] == b[0] && PositionBefore(a[1..], b[1..])))
  }

  /** The ORDER BY of the expansion: by generation, then by position. */
  predicate RowBefore(a: PedigreeRow, b: PedigreeRow) {
    a.generation < b.generation || (a.generation == b.generation && PositionBefore(a.position, b.position))
  }

  predicate RowsOrdered(rows: seq<PedigreeRow>) {
    forall i, j :: 0 <= i < j < |rows| ==> RowBefore(rows[i], rows[j])
  }

  /** The positions of one generation, strictly increasing. */
  predicate PositionsIncreasing(level: seq<PedigreeRow>) {
    forall i, j :: 0 <= i < j < |level| ==> PositionBefore(level[i].position, level[j].position)
  }

  /** Extending two ordered positions by one character each keeps them ordered. */
  lemma {:induction false} PositionBeforeExtend(a: string, b: string, c: char, d: char)
    requires PositionBefore(a, b)
    ensures PositionBefore(a + [c], b + [d])
    decreases |a|
  {
    assert (a + [c])[0] == a[0] && (b + [d])[0] == b[0];
    if a[0] == b[0] && !(a[0] < b[0]) {
      assert (a + [c])[1..] == a[1..] + [c];
      assert (b + [d])[1..] == b[1..] + [d];
      PositionBeforeExtend(a[1..], b[1..], c, d);
    }
  }

  /** A sire's position comes before the dam's. */
  lemma {:induction false} SireBeforeDam(a: string)
    ensures PositionBefore(a + "1", a + "2")
    decreases |a|
  {
    if a != [] {
      assert (a + "1")[1..] == a[1..] + "1";
      assert (a + "2")[1..] == a[1..] + "2";
      SireBeforeDam(a[1..]);
    }
  }

  /** One row's parents are in position order. */
  lemma KidsIncreasing(horses: map<string, Horse>, p: PedigreeRow, depth: int)
    ensures PositionsIncreasing(Kids(horses, p, depth))
    ensures forall x :: x in Kids(horses, p, depth) ==>
      x.generation == p.generation + 1 && (x.position == p.position + "1" || x.position == p.position + "2")
  {
    SireBeforeDam(p.position);
  }

  /** Dropping the first row keeps positions increasing. */
  lemma IncreasingTail(level: seq<PedigreeRow>)
    requires PositionsIncreasing(level) && level != []
    ensures PositionsIncreasing(level[1..])
  {
    forall i, j | 0 <= i < j < |level[1..]|
      ensures PositionBefore(level[1..][i].position, level[1..][j].position)
    {
      assert level[1..][i] == level[i + 1] && level[1..][j] == level[j + 1];
    }
  }

  /** In an increasing generation the first row comes before every later one. */
  lemma FirstBeforeRest(level: seq<PedigreeRow>, p: PedigreeRow)
    requires PositionsIncreasing(level) && level != [] && p in level[1..]
    ensures PositionBefore(level[0].position, p.position)
  {
    var j :| 0 <= j < |level[1..]| && level[1..][j] == p;
    assert level[j + 1] == p;
  }

  /** A parent of the first row comes before every parent of a later row. */
  lemma FirstKidsBefore(horses: map<string, Horse>, level: seq<PedigreeRow>, depth: int, a: PedigreeRow, b: PedigreeRow)
    requires PositionsIncreasing(level) && level != []
    requires a in Kids(horses, level[0], depth) && b in Children(horses, level[1..], depth)
    ensures PositionBefore(a.position, b.position)
  {
    KidsIncreasing(horses, level[0], depth);
    ChildrenMembers(horses, level[1..], depth);
    var p, isSire :| p in level[1..] && Expands(p, isSire, depth) && b == ChildRow(horses, p, isSire);
    FirstBeforeRest(level, p);
    var c := a.position[|a.position| - 1];
    var d := b.position[|b.position| - 1];
    assert level[0].position + [c] == a.position;
    assert p.position + [d] == b.position;
    PositionBeforeExtend(level[0].position, p.position, c, d);
  }

  /** The next generation of an increasing generation is increasing. */
  lemma {:induction false} ChildrenIncreasing(horses: map<string, Horse>, level: seq<PedigreeRow>, depth: int)
    requires PositionsIncreasing(level)
    ensures PositionsIncreasing(Children(horses, level, depth))
    decreases |level|
  {
    if level != [] {
      var first := Kids(horses, level[0], depth);
      var rest := Children(horses, level[1..], depth);
      IncreasingTail(level);
      ChildrenIncreasing(horses, level[1..], depth);
      KidsIncreasing(horses, level[0], depth);
      forall a, b | a in first && b in rest
        ensures PositionBefore(a.position, b.position)
      {
        FirstKidsBefore(horses, level, depth, a, b);
      }
      IncreasingConcat(first, rest);
    }
  }

  /** Two increasing runs, the first wholly before the second, make one. */
  lemma IncreasingConcat(a: seq<PedigreeRow>, b: seq<PedigreeRow>)
    requires PositionsIncreasing(a) && PositionsIncreasing(b)
    requires forall x, y :: x in a && y in b ==> PositionBefore(x.position, y.position)
    ensures PositionsIncreasing(a + b)
  {
    forall i, j | 0 <= i < j < |a + b|
      ensures PositionBefore((a + b)[i].position, (a + b)[j].position)
    {
      if j < |a| {
        assert (a + b)[i] == a[i] && (a + b)[j] == a[j];
      } else if i >= |a| {
        assert (a + b)[i] == b[i - |a|] && (a + b)[j] == b[j - |a|];
      } else {
        assert (a + b)[i] == a[i] && (a + b)[j] == b[j - |a|];
      }
    }
  }

  /** The generations from `g` on, each increasing, are in (generation, position) order. */
  lemma {:induction false} LayersOrdered(horses: map<string, Horse>, level: seq<PedigreeRow>, g: int, depth: int)
    requires PositionsIncreasing(level)
    requires forall x :: x in level ==> x.generation == g
    ensures RowsOrdered(Layers(horses, level, g, depth))
    ensures forall x :: x in Layers(horses, level, g, depth) ==> x.generation >= g
    decreases depth - g
  {
    if g < depth {
      var next := Children(horses, level, depth);
      ChildrenIncreasing(horses, level, depth);
      ChildrenMembers(horses, level, depth);
      LayersOrdered(horses, next, g + 1, depth);
      var later := Layers(horses, next, g + 1, depth);
      var all := level + later;
      forall i, j | 0 <= i < j < |all|
        ensures RowBefore(all[i], all[j])
      {
        if j < |level| {
          assert all[i] == level[i] && all[j] == level[j];
        } else if i >= |level| {
          assert all[i] == later[i - |level|] && all[j] == later[j - |level|];
        } else {
          assert all[i] == level[i] && all[j] == later[j - |level|];
          assert all[j] in later;
        }
      }
    } else {
      assert forall i :: 0 <= i < |level| ==> level[i] in level;
    }
  }

  /** The expansion comes out in (generation, position) order, so every position is distinct. */
  lemma ExpansionOrdered(horses: map<string, Horse>, horseId: string, depth: int)
    ensures RowsOrdered(PedigreeRows(horses, horseId, depth))
  {
    if horseId in horses {
      LayersOrdered(horses, [RootRow(horses, horseId)], 1, depth);
    }
  }
}
