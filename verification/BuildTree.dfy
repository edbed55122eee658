// The rendered repository tree, and a strict reader that is its inverse.
module BuildTree {
  import opened Prelude
  import opened TextOrder
  import Sorting

  /** A directory entry. `Other` is neither a file nor a directory, as a broken link is. */
  datatype Entry =
    | Directory(name: string, entries: seq<Entry>)
    | File(name: string)
    | Other(name: string)

  const EXCLUDED: set<string> := {
    ".claude", ".git", ".pytest_cache", ".pytest-tmp", ".ruff_cache", ".next", ".venv", "node_modules",
    "playwright-report", "test-results", "__pycache__", "dist", "out", "output_extracted" }

  // ----- Which entries, in which order --------------------------------------------

  /** The sort key: files last, then by name in lower case. */
  predicate Less(lower: string -> string, a: Entry, b: Entry) {
    (!a.File? && b.File?) || (a.File? == b.File? && Before(lower(a.name), lower(b.name)))
  }

  function Order(lower: string -> string): (Entry, Entry) -> bool { (a, b) => Less(lower, a, b) }

  predicate Excluded(e: Entry) { e.name in EXCLUDED && e.Directory? }

  function Kept(entries: seq<Entry>): seq<Entry> {
    if entries == [] then []
    else Kept(entries[..|entries| - 1]) + (if Excluded(entries[|entries| - 1]) then [] else [entries[|entries| - 1]])
  }

  function Listed(lower: string -> string, entries: seq<Entry>): seq<Entry> {
    Kept(Sorting.StableSort(Order(lower), entries))
  }

  lemma OrderIsKeyed(lower: string -> string)
    ensures Sorting.ByKey(Order(lower))
  {
    forall a, b ensures Order(lower)(a, b) ==> !Order(lower)(b, a) {
      BeforeIsOrder(lower(a.name), lower(b.name), "");
    }
    forall a, b, c ensures !Order(lower)(b, a) && !Order(lower)(c, b) ==> !Order(lower)(c, a) {
      BeforeIsOrder(lower(a.name), lower(b.name), lower(c.name));
    }
  }

  lemma {:induction false} KeptElements(entries: seq<Entry>, e: Entry)
    ensures multiset(Kept(entries))[e] == if Excluded(e) then 0 else multiset(entries)[e]
  {
    if entries != [] {
      var init, last := entries[..|entries| - 1], entries[|entries| - 1];
      KeptElements(init, e);
      assert entries == init + [last];
    }
  }

  lemma KeptMembers(entries: seq<Entry>)
    ensures forall e :: e in Kept(entries) <==> e in entries && !Excluded(e)
  {
    forall e ensures e in Kept(entries) <==> e in entries && !Excluded(e) {
      KeptElements(entries, e);
      assert e in Kept(entries) <==> e in multiset(Kept(entries));
      assert e in entries <==> e in multiset(entries);
    }
  }

  lemma {:induction false} KeptSorted(less: (Entry, Entry) -> bool, entries: seq<Entry>)
    requires Sorting.Sorted(less, entries)
    ensures Sorting.Sorted(less, Kept(entries))
  {
    if entries != [] {
      var init, last := entries[..|entries| - 1], entries[|entries| - 1];
      KeptSorted(less, init);
      KeptMembers(init);
      forall e | e in Kept(init) ensures !less(last, e) {
        var i :| 0 <= i < |init| && init[i] == e;
        assert !less(entries[|init|], entries[i]);
      }
      Sorting.SortedSnoc(less, Kept(init), last);
      assert Kept(init) + [] == Kept(init);
    }
  }

  lemma ListedSorted(lower: string -> string, entries: seq<Entry>)
    ensures var l := Listed(lower, entries);
            forall i, j :: 0 <= i < j < |l| ==>
              (l[i].File? ==> l[j].File?) && (l[i].File? == l[j].File? ==> !Before(lower(l[j].name), lower(l[i].name)))
  {
    OrderIsKeyed(lower);
    Sorting.SortKeepsElements(Order(lower), entries);
    KeptSorted(Order(lower), Sorting.StableSort(Order(lower), entries));
    var l := Listed(lower, entries);
    forall i, j | 0 <= i < j < |l|
      ensures (l[i].File? ==> l[j].File?) && (l[i].File? == l[j].File? ==> !Before(lower(l[j].name), lower(l[i].name)))
    {
      assert !Order(lower)(l[j], l[i]);
    }
  }

  /** Exactly the entries that are not directories with an excluded name, each as often as it occurs:
      files last, and otherwise by lower-case name. */
  lemma ListedProperties(lower: string -> string, entries: seq<Entry>)
    ensures forall e :: e in Listed(lower, entries) <==> e in entries && !(e.Directory? && e.name in EXCLUDED)
    ensures forall e :: multiset(Listed(lower, entries))[e] ==
                        if e.Directory? && e.name in EXCLUDED then 0 else multiset(entries)[e]
    ensures var l := Listed(lower, entries);
            forall i, j :: 0 <= i < j < |l| ==>
              (l[i].File? ==> l[j].File?) && (l[i].File? == l[j].File? ==> !Before(lower(l[j].name), lower(l[i].name)))
  {
    ListedSorted(lower, entries);
    OrderIsKeyed(lower);
    Sorting.SortKeepsElements(Order(lower), entries);
    var sorted := Sorting.StableSort(Order(lower), entries);
    KeptMembers(sorted);
    forall e ensures multiset(Listed(lower, entries))[e] == if Excluded(e) then 0 else multiset(entries)[e] {
      Sorting.StableSortProperties(Order(lower), entries, e);
      KeptElements(sorted, e);
    }
  }

  method IterEntries(lower: string -> string, directory: seq<Entry>) returns (entries: seq<Entry>)
    ensures entries == Listed(lower, directory)
  {
    entries := [];
    var sorted := Sorting.StableSort(Order(lower), directory);
    for i := 0 to |sorted|
      invariant entries == Kept(sorted[..i])
    {
      assert sorted[..i + 1][..i] == sorted[..i];
      if sorted[i].name in EXCLUDED && sorted[i].Directory? { continue; }
      entries := entries + [sorted[i]];
    }
    assert sorted[..|sorted|] == sorted;
  }

  // ----- The tree that is shown -------------------------------------------------------

  datatype Node = Leaf(name: string) | Branch(name: string, children: seq<Node>)

  function Height(e: Entry): nat { if e.Directory? then 1 + MaxHeight(e.entries) else 0 }

  function MaxHeight(entries: seq<Entry>): nat {
    if entries == [] then 0
    else
      var rest := MaxHeight(entries[1..]);
      if Height(entries[0]) > rest then Height(entries[0]) else rest
  }

  lemma {:induction false} HeightIn(entries: seq<Entry>, e: Entry)
    requires e in entries
    ensures Height(e) <= MaxHeight(entries)
  {
    if e != entries[0] { HeightIn(entries[1..], e); }
  }

  lemma {:induction false} HeightBound(listed: seq<Entry>, h: nat)
    requires forall e :: e in listed ==> Height(e) <= h
    ensures MaxHeight(listed) <= h
  {
    if listed != [] {
      assert listed[0] in listed;
      HeightBound(listed[1..], h);
    }
  }

  lemma ListedHeight(lower: string -> string, entries: seq<Entry>)
    ensures MaxHeight(Listed(lower, entries)) <= MaxHeight(entries)
  {
    ListedProperties(lower, entries);
    forall e | e in Listed(lower, entries) ensures Height(e) <= MaxHeight(entries) {
      HeightIn(entries, e);
    }
    HeightBound(Listed(lower, entries), MaxHeight(entries));
  }

  function NodeOf(lower: string -> string, e: Entry): Node
    decreases Height(e), 0, 0
  {
    if e.Directory? then Branch(e.name, Forest(lower, e.entries)) else Leaf(e.name)
  }

  function Forest(lower: string -> string, entries: seq<Entry>): seq<Node>
    decreases MaxHeight(entries), 2, 0
  {
    ListedHeight(lower, entries);
    Nodes(lower, Listed(lower, entries))
  }

  function Nodes(lower: string -> string, listed: seq<Entry>): seq<Node>
    decreases MaxHeight(listed), 1, |listed|
  {
    if listed == [] then [] else [NodeOf(lower, listed[0])] + Nodes(lower, listed[1..])
  }

  function Children(n: Node): seq<Node> { if n.Branch? then n.children else [] }

  /** How many nodes a forest has, at any level. */
  function Weight(forest: seq<Node>): nat {
    if forest == [] then 0
    else
      (match forest[0]
       case Leaf(_) => 1
       case Branch(_, children) => 1 + Weight(children)) + Weight(forest[1..])
  }

  function Directories(forest: seq<Node>): nat
    decreases Weight(forest)
  {
    if forest == [] then 0
    else (if forest[0].Branch? then 1 else 0) + Directories(Children(forest[0])) + Directories(forest[1..])
  }

  function Files(forest: seq<Node>): nat
    decreases Weight(forest)
  {
    if forest == [] then 0
    else (if forest[0].Leaf? then 1 else 0) + Files(Children(forest[0])) + Files(forest[1..])
  }

  // ----- Rendering --------------------------------------------------------------------

  const BAR: string := "\U{2502}   "
  const GAP: string := "    "
  const TEE: string := "\U{251C}\U{2500}\U{2500} "
  const CORNER: string := "\U{2514}\U{2500}\U{2500} "

  function Connector(last: bool): string { if last then CORNER else TEE }

  function Block(last: bool): string { if last then GAP else BAR }

  function Render(forest: seq<Node>, prefix: string): seq<string>
    decreases Weight(forest)
  {
    if forest == [] then []
    else
      var last := |forest| == 1;
      [prefix + Connector(last) + forest[0].name]
      + Render(Children(forest[0]), prefix + Block(last))
      + Render(forest[1..], prefix)
  }

  lemma {:induction false} NodesFrom(lower: string -> string, listed: seq<Entry>, i: nat)
    requires i < |listed|
    ensures Nodes(lower, listed[i..]) == [NodeOf(lower, listed[i])] + Nodes(lower, listed[i + 1..])
    ensures |Nodes(lower, listed[i..])| == 1 <==> i == |listed| - 1
  {
    assert listed[i..][1..] == listed[i + 1..];
    NodesLength(lower, listed[i..]);
  }

  lemma {:induction false} NodesLength(lower: string -> string, listed: seq<Entry>)
    ensures |Nodes(lower, listed)| == |listed|
    decreases |listed|
  {
    if listed != [] { NodesLength(lower, listed[1..]); }
  }

  /** One entry's share of the lines. */
  lemma RenderStep(node: Node, rest: seq<Node>, prefix: string, before: seq<string>)
    ensures before + Render([node] + rest, prefix) ==
            before + [prefix + Connector(rest == []) + node.name] + Render(Children(node), prefix + Block(rest == []))
            + Render(rest, prefix)
  {
    var forest := [node] + rest;
    assert forest[1..] == rest && forest[0] == node;
    var line, kids, others := [prefix + Connector(rest == []) + node.name], Render(Children(node), prefix + Block(rest == [])), Render(rest, prefix);
    assert Render(forest, prefix) == line + kids + others;
    assert before + (line + kids + others) == before + line + kids + others;
  }

  /** And of the counts. */
  lemma CountStep(node: Node, rest: seq<Node>)
    ensures Directories([node] + rest) == (if node.Branch? then 1 else 0) + Directories(Children(node)) + Directories(rest)
    ensures Files([node] + rest) == (if node.Leaf? then 1 else 0) + Files(Children(node)) + Files(rest)
  {
    assert ([node] + rest)[1..] == rest;
  }

  /** The same for the entry at `i` of a listing. */
  lemma EntryStep(lower: string -> string, entries: seq<Entry>, i: nat, prefix: string, before: seq<string>)
    requires i < |entries|
    ensures var (node, here, rest) := (NodeOf(lower, entries[i]), Nodes(lower, entries[i..]), Nodes(lower, entries[i + 1..]));
            var last := i == |entries| - 1;
            && before + Render(here, prefix) ==
               before + [prefix + Connector(last) + entries[i].name] + Render(Children(node), prefix + Block(last))
               + Render(rest, prefix)
            && Directories(here) == (if node.Branch? then 1 else 0) + Directories(Children(node)) + Directories(rest)
            && Files(here) == (if node.Leaf? then 1 else 0) + Files(Children(node)) + Files(rest)
  {
    NodesFrom(lower, entries, i);
    NodesLength(lower, entries[i + 1..]);
    RenderStep(NodeOf(lower, entries[i]), Nodes(lower, entries[i + 1..]), prefix, before);
    CountStep(NodeOf(lower, entries[i]), Nodes(lower, entries[i + 1..]));
  }

  method Build(lower: string -> string, directory: seq<Entry>, prefix: string)
    returns (lines: seq<string>, directories: nat, files: nat)
    ensures lines == Render(Forest(lower, directory), prefix)
    ensures directories == Directories(Forest(lower, directory)) && files == Files(Forest(lower, directory))
    decreases MaxHeight(directory)
  {
    lines, directories, files := [], 0, 0;
    var entries := IterEntries(lower, directory);
    ListedHeight(lower, directory);
    ghost var all := Forest(lower, directory);
    assert entries[0..] == entries;
    for i := 0 to |entries|
      invariant Render(all, prefix) == lines + Render(Nodes(lower, entries[i..]), prefix)
      invariant Directories(all) == directories + Directories(Nodes(lower, entries[i..]))
      invariant Files(all) == files + Files(Nodes(lower, entries[i..]))
    {
      var entry, last := entries[i], i == |entries| - 1;
      EntryStep(lower, entries, i, prefix, lines);
      lines := lines + [prefix + Connector(last) + entry.name];
      if entry.Directory? {
        HeightIn(entries, entry);
        var childLines, childDirectories, childFiles := Build(lower, entry.entries, prefix + Block(last));
        lines := lines + childLines;
        directories := directories + 1 + childDirectories;
        files := files + childFiles;
      } else {
        assert lines + [] == lines;
        files := files + 1;
      }
    }
  }

  // ----- Marks: what one line says --------------------------------------------------------

  /** For each directory above, whether it was the last of its siblings; then the same for the entry. */
  datatype Mark = Mark(path: seq<bool>, last: bool, name: string)

  function Blocks(path: seq<bool>): string { if path == [] then "" else Block(path[0]) + Blocks(path[1..]) }

  function LineOf(m: Mark): string { Blocks(m.path) + Connector(m.last) + m.name }

  function LinesOf(marks: seq<Mark>): seq<string> {
    if marks == [] then [] else [LineOf(marks[0])] + LinesOf(marks[1..])
  }

  function Marks(forest: seq<Node>, path: seq<bool>): seq<Mark>
    decreases Weight(forest)
  {
    if forest == [] then []
    else
      var last := |forest| == 1;
      [Mark(path, last, forest[0].name)] + Marks(Children(forest[0]), path + [last]) + Marks(forest[1..], path)
  }

  lemma {:induction false} BlocksSnoc(path: seq<bool>, last: bool)
    ensures Blocks(path + [last]) == Blocks(path) + Block(last)
  {
    if path == [] {
      assert path + [last] == [last] && [last][1..] == [];
      assert Blocks([last]) == Block(last) + "";
    } else {
      assert (path + [last])[1..] == path[1..] + [last];
      BlocksSnoc(path[1..], last);
    }
  }

  lemma {:induction false} LinesOfConcat(a: seq<Mark>, b: seq<Mark>)
    ensures LinesOf(a + b) == LinesOf(a) + LinesOf(b)
  {
    if a == [] {
      assert a + b == b;
    } else {
      assert (a + b)[1..] == a[1..] + b;
      LinesOfConcat(a[1..], b);
    }
  }

  lemma {:induction false} RenderIsMarks(forest: seq<Node>, path: seq<bool>)
    ensures Render(forest, Blocks(path)) == LinesOf(Marks(forest, path))
    decreases Weight(forest)
  {
    if forest != [] {
      var last := |forest| == 1;
      var head, kids, rest := Mark(path, last, forest[0].name), Marks(Children(forest[0]), path + [last]), Marks(forest[1..], path);
      RenderIsMarks(Children(forest[0]), path + [last]);
      RenderIsMarks(forest[1..], path);
      BlocksSnoc(path, last);
      LinesOfConcat([head] + kids, rest);
      LinesOfConcat([head], kids);
      assert [head][1..] == [] && LinesOf([head]) == [LineOf(head)];
    }
  }

  /** A line for every directory and file, and no other. */
  lemma {:induction false} LineCount(forest: seq<Node>, prefix: string)
    ensures |Render(forest, prefix)| == Directories(forest) + Files(forest)
    decreases Weight(forest)
  {
    if forest != [] {
      var last := |forest| == 1;
      LineCount(Children(forest[0]), prefix + Block(last));
      LineCount(forest[1..], prefix);
    }
  }

  // ----- The reader -----------------------------------------------------------------------

  datatype Piece = Connects(last: bool) | Indents(last: bool) | NoPiece

  function PieceOf(head: string): Piece {
    if head == TEE then Connects(false)
    else if head == CORNER then Connects(true)
    else if head == BAR then Indents(false)
    else if head == GAP then Indents(true)
    else NoPiece
  }

  /** Four characters at a time until a connector; the rest is the name, whatever it holds. */
  function ReadLine(line: string): Option<Mark> {
    if |line| < 4 then None
    else
      match PieceOf(line[..4])
      case Connects(last) => Some(Mark([], last, line[4..]))
      case Indents(last) =>
        var m :- ReadLine(line[4..]);
        Some(Mark([last] + m.path, m.last, m.name))
      case NoPiece => None
  }

  function ReadLines(lines: seq<string>): Option<seq<Mark>> {
    if lines == [] then Some([])
    else
      var m :- ReadLine(lines[0]);
      var rest :- ReadLines(lines[1..]);
      Some([m] + rest)
  }

  /** How many marks in front are deeper than `depth`. */
  function Deeper(marks: seq<Mark>, depth: nat): (n: nat)
    ensures n <= |marks|
  {
    if marks == [] || |marks[0].path| <= depth then 0 else 1 + Deeper(marks[1..], depth)
  }

  function NodeFor(name: string, children: seq<Node>): Node { if children == [] then Leaf(name) else Branch(name, children) }

  /** Every path must be the one that the connectors above spell, and the last connector must be on
      the last sibling. */
  function ReadForest(marks: seq<Mark>, path: seq<bool>): Option<seq<Node>>
    decreases |marks|
  {
    if marks == [] then Some([])
    else
      var k := 1 + Deeper(marks[1..], |path|);
      if marks[0].path != path || (marks[0].last != (k == |marks|)) then None
      else
        var children :- ReadForest(marks[1..k], path + [marks[0].last]);
        var rest :- ReadForest(marks[k..], path);
        Some([NodeFor(marks[0].name, children)] + rest)
  }

  function Read(lines: seq<string>): Option<seq<Node>> {
    var marks :- ReadLines(lines);
    ReadForest(marks, [])
  }

  // ----- Reading back ------------------------------------------------------------------------

  /** The forest as far as lines show it: an empty directory looks like a file. */
  function Shape(forest: seq<Node>): seq<Node>
    decreases Weight(forest)
  {
    if forest == [] then []
    else [NodeFor(forest[0].name, Shape(Children(forest[0])))] + Shape(forest[1..])
  }

  lemma CutFour(head: string, tail: string)
    requires |head| == 4
    ensures |head + tail| >= 4 && (head + tail)[..4] == head && (head + tail)[4..] == tail
  {
  }

  lemma Pieces(last: bool)
    ensures PieceOf(Connector(last)) == Connects(last) && PieceOf(Block(last)) == Indents(last)
    ensures |Connector(last)| == 4 && |Block(last)| == 4
  {
    assert CORNER[0] != TEE[0] && BAR[0] != TEE[0] && BAR[0] != CORNER[0];
    assert GAP[0] != TEE[0] && GAP[0] != CORNER[0] && GAP[0] != BAR[0];
  }

  lemma PieceTexts(head: string)
    ensures PieceOf(head).Connects? ==> head == Connector(PieceOf(head).last)
    ensures PieceOf(head).Indents? ==> head == Block(PieceOf(head).last)
  {
  }

  lemma ReadConnector(last: bool, name: string)
    ensures ReadLine(Connector(last) + name) == Some(Mark([], last, name))
  {
    Pieces(last);
    CutFour(Connector(last), name);
  }

  lemma ReadBlock(last: bool, line: string)
    requires ReadLine(line).Some?
    ensures var m := ReadLine(line).value;
            ReadLine(Block(last) + line) == Some(Mark([last] + m.path, m.last, m.name))
  {
    Pieces(last);
    CutFour(Block(last), line);
  }

  lemma LineOfDeeper(m: Mark)
    requires m.path != []
    ensures LineOf(m) == Block(m.path[0]) + LineOf(Mark(m.path[1..], m.last, m.name))
  {
  }

  lemma LineOfTop(last: bool, name: string)
    ensures LineOf(Mark([], last, name)) == Connector(last) + name
  {
  }

  lemma {:induction false} LineReads(m: Mark)
    ensures ReadLine(LineOf(m)) == Some(m)
    decreases |m.path|
  {
    if m.path == [] {
      LineOfTop(m.last, m.name);
      ReadConnector(m.last, m.name);
    } else {
      var inner := Mark(m.path[1..], m.last, m.name);
      LineReads(inner);
      LineOfDeeper(m);
      ReadBlock(m.path[0], LineOf(inner));
      assert [m.path[0]] + inner.path == m.path;
    }
  }

  lemma {:induction false} ReadsLine(line: string)
    requires ReadLine(line).Some?
    ensures LineOf(ReadLine(line).value) == line
  {
    var head, tail, m := line[..4], line[4..], ReadLine(line).value;
    PieceTexts(head);
    if PieceOf(head).Connects? {
      LineOfTop(m.last, tail);
    } else {
      ReadsLine(tail);
      var inner := ReadLine(tail).value;
      assert m.path[1..] == inner.path;
      LineOfDeeper(m);
    }
  }

  lemma LinesStep(m: Mark, marks: seq<Mark>)
    ensures LinesOf([m] + marks) == [LineOf(m)] + LinesOf(marks)
  {
    assert ([m] + marks)[1..] == marks;
  }

  lemma ReadStep(line: string, lines: seq<string>)
    ensures ReadLines([line] + lines) ==
            if ReadLine(line).None? || ReadLines(lines).None? then None
            else Some([ReadLine(line).value] + ReadLines(lines).value)
  {
    assert ([line] + lines)[1..] == lines;
  }

  lemma {:induction false} LinesRead(marks: seq<Mark>)
    ensures ReadLines(LinesOf(marks)) == Some(marks)
  {
    if marks != [] {
      LineReads(marks[0]);
      LinesRead(marks[1..]);
      assert marks == [marks[0]] + marks[1..];
      LinesStep(marks[0], marks[1..]);
      ReadStep(LineOf(marks[0]), LinesOf(marks[1..]));
    }
  }

  lemma {:induction false} ReadsLines(lines: seq<string>)
    requires ReadLines(lines).Some?
    ensures LinesOf(ReadLines(lines).value) == lines
  {
    if lines != [] {
      assert lines == [lines[0]] + lines[1..];
      ReadStep(lines[0], lines[1..]);
      ReadsLine(lines[0]);
      ReadsLines(lines[1..]);
      LinesStep(ReadLine(lines[0]).value, ReadLines(lines[1..]).value);
    }
  }

  /** Marks lie at or below their path; the first lies at it. */
  lemma {:induction false} MarksDepth(forest: seq<Node>, path: seq<bool>)
    ensures forall m :: m in Marks(forest, path) ==> |m.path| >= |path|
    ensures forest != [] ==> Marks(forest, path) != [] && Marks(forest, path)[0].path == path
    decreases Weight(forest)
  {
    if forest != [] {
      MarksDepth(Children(forest[0]), path + [|forest| == 1]);
      MarksDepth(forest[1..], path);
    }
  }

  lemma {:induction false} DeeperSpan(kids: seq<Mark>, rest: seq<Mark>, depth: nat)
    requires forall m :: m in kids ==> |m.path| > depth
    requires rest != [] ==> |rest[0].path| <= depth
    ensures Deeper(kids + rest, depth) == |kids|
  {
    if kids == [] {
      assert kids + rest == rest;
    } else {
      assert kids[0] in kids;
      assert (kids + rest)[1..] == kids[1..] + rest;
      DeeperSpan(kids[1..], rest, depth);
    }
  }

  /** A mark, the deeper marks behind it, and its siblings. */
  lemma ReadTree(head: Mark, kids: seq<Mark>, rest: seq<Mark>)
    requires forall m :: m in kids ==> |m.path| > |head.path|
    requires rest != [] ==> |rest[0].path| <= |head.path|
    ensures var (children, siblings) := (ReadForest(kids, head.path + [head.last]), ReadForest(rest, head.path));
            ReadForest([head] + kids + rest, head.path) ==
            if head.last != (rest == []) || children.None? || siblings.None? then None
            else Some([NodeFor(head.name, children.value)] + siblings.value)
  {
    var marks, k := [head] + kids + rest, 1 + |kids|;
    DeeperSpan(kids, rest, |head.path|);
    assert marks[1..] == kids + rest && marks[1..k] == kids && marks[k..] == rest;
  }

  lemma {:induction false} MarksRead(forest: seq<Node>, path: seq<bool>)
    ensures ReadForest(Marks(forest, path), path) == Some(Shape(forest))
    decreases Weight(forest)
  {
    if forest != [] {
      var last := |forest| == 1;
      var kids, rest := Marks(Children(forest[0]), path + [last]), Marks(forest[1..], path);
      MarksDepth(Children(forest[0]), path + [last]);
      MarksDepth(forest[1..], path);
      MarksRead(Children(forest[0]), path + [last]);
      MarksRead(forest[1..], path);
      ReadTree(Mark(path, last, forest[0].name), kids, rest);
    }
  }

  lemma {:induction false} DeeperAreDeeper(marks: seq<Mark>, depth: nat)
    ensures forall m :: m in marks[..Deeper(marks, depth)] ==> |m.path| > depth
    ensures marks[Deeper(marks, depth)..] != [] ==> |marks[Deeper(marks, depth)..][0].path| <= depth
  {
    if marks != [] && |marks[0].path| > depth {
      DeeperAreDeeper(marks[1..], depth);
      var n := Deeper(marks[1..], depth);
      assert marks[..n + 1] == [marks[0]] + marks[1..][..n] && marks[n + 1..] == marks[1..][n..];
    }
  }

  lemma MarksOfTree(name: string, children: seq<Node>, rest: seq<Node>, path: seq<bool>)
    ensures var forest := [NodeFor(name, children)] + rest;
            Marks(forest, path) ==
            [Mark(path, rest == [], name)] + Marks(children, path + [rest == []]) + Marks(rest, path)
    ensures Shape([NodeFor(name, children)] + rest) == [NodeFor(name, Shape(children))] + Shape(rest)
  {
    assert ([NodeFor(name, children)] + rest)[1..] == rest;
  }

  /** A mark, the deeper ones right behind it, and the rest. */
  lemma CutMarks(marks: seq<Mark>, depth: nat) returns (kids: seq<Mark>, rest: seq<Mark>)
    requires marks != []
    ensures marks == [marks[0]] + kids + rest
    ensures forall m :: m in kids ==> |m.path| > depth
    ensures rest != [] ==> |rest[0].path| <= depth
  {
    var n := Deeper(marks[1..], depth);
    kids, rest := marks[1..][..n], marks[1..][n..];
    DeeperAreDeeper(marks[1..], depth);
    assert marks == [marks[0]] + marks[1..] && marks[1..] == kids + rest;
  }

  /** A mark list that reads, in its three parts and what each reads as. */
  lemma ReadParts(marks: seq<Mark>, path: seq<bool>)
    returns (kids: seq<Mark>, rest: seq<Mark>, children: seq<Node>, siblings: seq<Node>)
    requires marks != [] && ReadForest(marks, path).Some?
    ensures marks == [marks[0]] + kids + rest && marks[0].path == path && (marks[0].last <==> rest == [])
    ensures ReadForest(kids, path + [marks[0].last]) == Some(children) && ReadForest(rest, path) == Some(siblings)
    ensures ReadForest(marks, path) == Some([NodeFor(marks[0].name, children)] + siblings)
    ensures siblings == [] <==> rest == []
  {
    assert marks[0].path == path;
    kids, rest := CutMarks(marks, |path|);
    ReadTree(marks[0], kids, rest);
    children, siblings := ReadForest(kids, path + [marks[0].last]).value, ReadForest(rest, path).value;
    ReadNothing(rest, path);
  }

  lemma ReadNothing(marks: seq<Mark>, path: seq<bool>)
    ensures ReadForest(marks, path) == Some([]) <==> marks == []
  {
  }

  lemma {:induction false} ReadsMarks(marks: seq<Mark>, path: seq<bool>)
    requires ReadForest(marks, path).Some?
    ensures Marks(ReadForest(marks, path).value, path) == marks
    ensures Shape(ReadForest(marks, path).value) == ReadForest(marks, path).value
    decreases |marks|
  {
    if marks != [] {
      var kids, rest, children, siblings := ReadParts(marks, path);
      ReadsMarks(kids, path + [marks[0].last]);
      ReadsMarks(rest, path);
      MarksOfTree(marks[0].name, children, siblings, path);
    }
  }

  /** Reading is the exact inverse of rendering: lines read as a forest exactly when they are that
      forest's rendering, for any names, and a forest's lines read as its shape. */
  lemma ReadInvertsRender(lines: seq<string>, forest: seq<Node>)
    ensures Read(Render(forest, "")) == Some(Shape(forest))
    ensures Read(lines) == Some(forest) <==> lines == Render(forest, "") && Shape(forest) == forest
  {
    RenderIsMarks(forest, []);
    MarksRead(forest, []);
    LinesRead(Marks(forest, []));
    if Read(lines) == Some(forest) {
      ReadsLines(lines);
      ReadsMarks(ReadLines(lines).value, []);
    }
  }
}
