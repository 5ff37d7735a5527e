/** The filtering enumerator of gcontenttype.c: each call returns the next file whose path matches a
    sequence of component patterns, resuming a depth-first walk whose state is two arrays. */
module TreeEnumerator {
  import opened Wrappers

  /** A directory entry: a directory, or anything that cannot be enumerated. */
  datatype Node = Leaf(name: string) | Dir(name: string, entries: seq<Node>) {
    function Children(): Option<seq<Node>> {
      if Dir? then Some(entries) else None
    }
  }

  datatype File = File(path: seq<string>, node: Node)

  /** `key` is the collation key of a case-folded name. */
  datatype Pattern = Pattern(components: seq<string>, ignoreCase: bool, key: string -> string)

  /** component_match */
  predicate Matches(p: Pattern, depth: nat, name: string)
    requires depth < |p.components|
  {
    || name == p.components[depth]
    || (p.ignoreCase && p.key(name) == p.key(p.components[depth]))
  }

  function Child(dir: File, entry: Node): File {
    File(dir.path + [entry.name], entry)
  }

  // ----- what a sequence of calls should return -----

  /** The matching entries of one directory at one depth. */
  function Filter(p: Pattern, depth: nat, dir: File, entries: seq<Node>): seq<Option<File>>
    requires depth < |p.components|
  {
    if entries == [] then []
    else (if Matches(p, depth, entries[0].name) then [Some(Child(dir, entries[0]))] else [])
         + Filter(p, depth, dir, entries[1..])
  }

  /** What one result at the depth above leads to: the matching entries of that directory, or a
      single NULL if it is none or cannot be enumerated. */
  function Descend(p: Pattern, depth: nat, above: Option<File>): seq<Option<File>>
    requires depth < |p.components|
  {
    if above.None? || above.value.node.Children().None? then [None]
    else Filter(p, depth, above.value, above.value.node.Children().value)
  }

  function DescendAll(p: Pattern, depth: nat, above: seq<Option<File>>): seq<Option<File>>
    requires depth < |p.components|
  {
    if above == [] then [] else Descend(p, depth, above[0]) + DescendAll(p, depth, above[1..])
  }

  /** The results of all calls at one depth, in order. */
  function Results(p: Pattern, root: Node, depth: nat): seq<Option<File>>
    requires depth < |p.components|
  {
    if depth > 0 then DescendAll(p, depth, Results(p, root, depth - 1))
    else if root.Children().None? then []
    else Filter(p, 0, File([], root), root.Children().value)
  }

  type Entries = Option<seq<Node>>   // of a GFileEnumerator: the entries not yet looked at

  /** What is still to be found in the directory open at one depth. */
  function Open(p: Pattern, depth: nat, entries: Entries, dir: Option<File>): seq<Option<File>>
    requires depth < |p.components|
  {
    if entries.None? || dir.None? then [] else Filter(p, depth, dir.value, entries.value)
  }

  /** The results that calls at one depth have yet to return, given the two arrays. */
  function Remaining(p: Pattern, entries: seq<Entries>, dirs: seq<Option<File>>, depth: nat): seq<Option<File>>
    requires depth < |p.components| == |entries| == |dirs|
    decreases depth, 1
  {
    Open(p, depth, entries[depth], dirs[depth]) + Below(p, entries, dirs, depth)
  }

  function Below(p: Pattern, entries: seq<Entries>, dirs: seq<Option<File>>, depth: nat): seq<Option<File>>
    requires depth < |p.components| == |entries| == |dirs|
    decreases depth, 0
  {
    if depth == 0 then [] else DescendAll(p, depth, Remaining(p, entries, dirs, depth - 1))
  }

  /** Deeper positions of the arrays do not matter. */
  lemma {:induction false} RemainingPrefix(p: Pattern, es: seq<Entries>, ds: seq<Option<File>>,
                                           es': seq<Entries>, ds': seq<Option<File>>, depth: nat)
    requires depth < |p.components| == |es| == |ds| == |es'| == |ds'|
    requires forall i :: 0 <= i <= depth ==> es[i] == es'[i] && ds[i] == ds'[i]
    ensures Remaining(p, es, ds, depth) == Remaining(p, es', ds', depth)
  {
    if depth > 0 { RemainingPrefix(p, es, ds, es', ds', depth - 1); }
  }

  /** Changing one position changes what is open there and nothing below. */
  lemma {:induction false} LevelUpdate(p: Pattern, es: seq<Entries>, ds: seq<Option<File>>, depth: nat,
                                       e: Entries, d: Option<File>)
    requires depth < |p.components| == |es| == |ds|
    ensures Remaining(p, es[depth := e], ds[depth := d], depth) == Open(p, depth, e, d) + Below(p, es, ds, depth)
    ensures depth > 0 ==>
      Remaining(p, es[depth := e], ds[depth := d], depth - 1) == Remaining(p, es, ds, depth - 1)
  {
    var es', ds' := es[depth := e], ds[depth := d];
    if depth > 0 { RemainingPrefix(p, es', ds', es, ds, depth - 1); }
    assert Below(p, es', ds', depth) == Below(p, es, ds, depth);
  }

  /** At the start everything remains. */
  lemma {:induction false} NewlyRemaining(p: Pattern, root: Node, es: seq<Entries>, ds: seq<Option<File>>, depth: nat)
    requires depth < |p.components| == |es| == |ds|
    requires es[0] == root.Children() && ds[0] == Some(File([], root))
    requires forall i :: 0 < i < |es| ==> es[i] == None
    ensures Remaining(p, es, ds, depth) == Results(p, root, depth)
  {
    if depth > 0 { NewlyRemaining(p, root, es, ds, depth - 1); }
  }

  // ----- the enumerator -----

  class Enumerator {
    const p: Pattern
    const enumerators: array<Entries>
    const children: array<Option<File>>           // the directories being enumerated

    ghost predicate Valid()
      reads enumerators, children
    {
      && enumerators.Length == children.Length == |p.components|
      && (forall i :: 0 <= i < enumerators.Length && enumerators[i].Some? ==> children[i].Some?)
    }

    ghost function Pending(depth: nat): seq<Option<File>>
      requires Valid() && depth < |p.components|
      reads enumerators, children
    {
      Remaining(p, enumerators[..], children[..], depth)
    }

    /** What a call leaves alone. */
    twostate predicate SameBeyond(depth: nat)
      requires enumerators.Length == children.Length
      reads enumerators, children
    {
      forall i :: depth < i < enumerators.Length ==>
        enumerators[i] == old(enumerators[i]) && children[i] == old(children[i])
    }

    /** enumerator_new */
    constructor (root: Node, p: Pattern)
      requires p.components != []
      ensures Valid() && this.p == p && fresh(enumerators) && fresh(children)
      ensures forall depth :: 0 <= depth < |p.components| ==> Pending(depth) == Results(p, root, depth)
    {
      this.p := p;
      enumerators := new Entries[|p.components|](i => None);
      children := new Option<File>[|p.components|](i => None);
      new;
      children[0] := Some(File([], root));
      enumerators[0] := root.Children();
      forall depth | 0 <= depth < |p.components| ensures Pending(depth) == Results(p, root, depth) {
        NewlyRemaining(p, root, enumerators[..], children[..], depth);
      }
    }

    /** next_match_recurse */
    method Next(depth: nat) returns (file: Option<File>)
      requires Valid() && depth < |p.components|
      modifies enumerators, children
      ensures Valid() && SameBeyond(depth)
      ensures if old(Pending(depth)) == [] then file == None && Pending(depth) == []
              else file == old(Pending(depth))[0] && Pending(depth) == old(Pending(depth))[1..]
      decreases depth, 1
    {
      while true
        invariant Valid() && Pending(depth) == old(Pending(depth)) && SameBeyond(depth)
        decreases if depth == 0 then 0 else |Pending(depth - 1)|, enumerators[depth].Some?
      {
        if enumerators[depth].None? {
          var ready := false;
          if depth > 0 {
            ready := Refill(depth);
          }
          if !ready { return None; }
        }
        file := Scan(depth);
        if file.Some? { return; }
        CloseLevel(depth);
      }
    }

    /** Opens the next directory found at the depth above, if it can be enumerated. */
    method Refill(depth: nat) returns (ready: bool)
      requires Valid() && 0 < depth < |p.components| && enumerators[depth].None?
      modifies enumerators, children
      ensures Valid() && SameBeyond(depth) && enumerators[depth].Some? == ready
      ensures ready ==> Pending(depth) == old(Pending(depth)) && |Pending(depth - 1)| < |old(Pending(depth - 1))|
      ensures !ready ==>
        if old(Pending(depth)) == [] then Pending(depth) == []
        else old(Pending(depth))[0] == None && Pending(depth) == old(Pending(depth))[1..]
      decreases depth, 0
    {
      ghost var above := Pending(depth - 1);
      ClosedPending(depth);
      var file := Next(depth - 1);
      ClosedPending(depth);
      if above != [] {
        assert DescendAll(p, depth, above) == Descend(p, depth, above[0]) + DescendAll(p, depth, above[1..]);
      }
      if file.Some? {
        OpenLevel(depth, file.value);
      }
      ready := enumerators[depth].Some?;
    }

    lemma ClosedPending(depth: nat)
      requires Valid() && 0 < depth < |p.components| && enumerators[depth].None?
      ensures Pending(depth) == DescendAll(p, depth, Pending(depth - 1))
    {
      assert Below(p, enumerators[..], children[..], depth) == DescendAll(p, depth, Pending(depth - 1));
    }

    /** g_file_enumerate_children */
    method OpenLevel(depth: nat, dir: File)
      requires Valid() && 0 < depth < |p.components|
      modifies enumerators, children
      ensures Valid() && SameBeyond(depth) && enumerators[depth] == dir.node.Children()
      ensures Pending(depth - 1) == old(Pending(depth - 1))
      ensures Pending(depth) ==
        Open(p, depth, dir.node.Children(), Some(dir)) + DescendAll(p, depth, Pending(depth - 1))
    {
      ghost var es, ds := enumerators[..], children[..];
      children[depth] := Some(dir);
      enumerators[depth] := dir.node.Children();
      LevelUpdate(p, es, ds, depth, dir.node.Children(), Some(dir));
      assert enumerators[..] == es[depth := dir.node.Children()] && children[..] == ds[depth := Some(dir)];
    }

    /** Forgets an exhausted directory. */
    method CloseLevel(depth: nat)
      requires Valid() && depth < |p.components| && enumerators[depth] == Some([])
      modifies enumerators, children
      ensures Valid() && SameBeyond(depth) && enumerators[depth].None? && Pending(depth) == old(Pending(depth))
      ensures depth > 0 ==> Pending(depth - 1) == old(Pending(depth - 1))
    {
      LevelUpdate(p, enumerators[..], children[..], depth, None, None);
      enumerators[depth] := None;
      children[depth] := None;
      assert enumerators[..] == old(enumerators[..])[depth := None];
      assert children[..] == old(children[..])[depth := None];
    }

    /** The inner loop: the next matching entry of the open directory. */
    method Scan(depth: nat) returns (file: Option<File>)
      requires Valid() && depth < |p.components| && enumerators[depth].Some?
      modifies enumerators
      ensures Valid() && SameBeyond(depth) && enumerators[depth].Some?
      ensures file.Some? ==>
        old(Pending(depth)) != [] && file == old(Pending(depth))[0] && Pending(depth) == old(Pending(depth))[1..]
      ensures file.None? ==> Pending(depth) == old(Pending(depth)) && enumerators[depth].value == []
      ensures depth > 0 ==> Pending(depth - 1) == old(Pending(depth - 1))
    {
      file := None;
      while enumerators[depth].value != []
        invariant Valid() && enumerators[depth].Some? && SameBeyond(depth) && Pending(depth) == old(Pending(depth))
        invariant depth > 0 ==> Pending(depth - 1) == old(Pending(depth - 1))
        decreases |enumerators[depth].value|
      {
        var info := PopEntry(depth);
        if Matches(p, depth, info.name) {
          return Some(Child(children[depth].value, info));
        }
      }
    }

    /** g_file_enumerator_next_file on the open directory. */
    method PopEntry(depth: nat) returns (info: Node)
      requires Valid() && depth < |p.components| && enumerators[depth].Some? && enumerators[depth].value != []
      modifies enumerators
      ensures Valid() && SameBeyond(depth) && enumerators[depth] == Some(old(enumerators[depth].value)[1..])
      ensures old(Pending(depth)) ==
        (if Matches(p, depth, info.name) then [Some(Child(children[depth].value, info))] else []) + Pending(depth)
      ensures depth > 0 ==> Pending(depth - 1) == old(Pending(depth - 1))
    {
      info := enumerators[depth].value[0];
      var rest := Some(enumerators[depth].value[1..]);
      LevelUpdate(p, enumerators[..], children[..], depth, rest, children[depth]);
      JoinAssoc(if Matches(p, depth, info.name) then [Some(Child(children[depth].value, info))] else [],
                Open(p, depth, rest, children[depth]), Below(p, enumerators[..], children[..], depth));
      assert children[..] == children[..][depth := children[depth]];
      enumerators[depth] := rest;
      assert enumerators[..] == old(enumerators[..])[depth := rest];
    }

    /** What calls of enumerator_next have yet to return. */
    ghost function Due(): seq<Option<File>>
      requires Valid() && p.components != []
      reads enumerators, children
    {
      Pending(|p.components| - 1)
    }

    /** enumerator_next */
    method NextFile() returns (file: Option<File>)
      requires Valid() && p.components != []
      modifies enumerators, children
      ensures Valid()
      ensures file == At(old(Due()), 0) && Due() == Rest(old(Due()), 1)
    {
      file := Next(|p.components| - 1);
    }

    /** Repeated calls of enumerator_next: everything pending in order, then NULL forever. */
    method Drain(calls: nat) returns (results: seq<Option<File>>)
      requires Valid() && p.components != []
      modifies enumerators, children
      ensures Valid() && |results| == calls
      ensures forall i :: 0 <= i < calls ==> results[i] == At(old(Due()), i)
    {
      ghost var all := Due();
      results := [];
      for k := 0 to calls
        invariant Valid() && |results| == k
        invariant Due() == Rest(all, k)
        invariant forall i :: 0 <= i < k ==> results[i] == At(all, i)
      {
        RestStep(all, k);
        var file := NextFile();
        results := results + [file];
      }
    }
  }

  function At(results: seq<Option<File>>, i: nat): Option<File> {
    if i < |results| then results[i] else None
  }

  function Rest(results: seq<Option<File>>, k: nat): seq<Option<File>> {
    if k < |results| then results[k..] else []
  }

  lemma RestStep(results: seq<Option<File>>, k: nat)
    ensures At(Rest(results, k), 0) == At(results, k) && Rest(Rest(results, k), 1) == Rest(results, k + 1)
  {
  }

  /** From a new enumerator, call i returns result i of the whole walk, or NULL after its end. */
  method Enumerate(root: Node, p: Pattern, calls: nat) returns (results: seq<Option<File>>)
    requires p.components != []
    ensures |results| == calls
    ensures forall i :: 0 <= i < calls ==> results[i] == At(Results(p, root, |p.components| - 1), i)
  {
    var e := new Enumerator(root, p);
    results := e.Drain(calls);
  }

  // ----- the results are the matching files -----

  /** Following `path` from the root, name by name, arrives at `node`. */
  ghost predicate Leads(root: Node, path: seq<string>, node: Node)
    decreases |path|
  {
    if path == [] then node == root
    else exists dir :: IsEntry(dir, node, Base(path)) && Leads(root, Parent(path), dir)
  }

  function Parent(path: seq<string>): (r: seq<string>)
    requires path != []
    ensures |r| < |path|
  {
    path[..|path| - 1]
  }

  function Base(path: seq<string>): string
    requires path != []
  {
    path[|path| - 1]
  }

  predicate IsEntry(dir: Node, node: Node, name: string) {
    dir.Children().Some? && node in dir.Children().value && node.name == name
  }

  ghost predicate IsMatch(p: Pattern, root: Node, f: File, depth: nat)
    requires depth < |p.components|
  {
    && |f.path| == depth + 1
    && Leads(root, f.path, f.node)
    && (forall i :: 0 <= i <= depth ==> Matches(p, i, f.path[i]))
  }

  lemma {:induction false} FilterSound(p: Pattern, depth: nat, dir: File, entries: seq<Node>, x: Option<File>)
    requires depth < |p.components| && x in Filter(p, depth, dir, entries)
    ensures x.Some? && x.value.node in entries && x.value == Child(dir, x.value.node)
    ensures Matches(p, depth, x.value.node.name)
    decreases |entries|
  {
    if !(Matches(p, depth, entries[0].name) && x == Some(Child(dir, entries[0]))) {
      FilterSound(p, depth, dir, entries[1..], x);
    }
  }

  lemma {:induction false} FilterComplete(p: Pattern, depth: nat, dir: File, entries: seq<Node>, entry: Node)
    requires depth < |p.components| && entry in entries && Matches(p, depth, entry.name)
    ensures Some(Child(dir, entry)) in Filter(p, depth, dir, entries)
    decreases |entries|
  {
    if entry != entries[0] { FilterComplete(p, depth, dir, entries[1..], entry); }
  }

  lemma {:induction false} DescendAllSound(p: Pattern, depth: nat, above: seq<Option<File>>, x: Option<File>)
      returns (o: Option<File>)
    requires depth < |p.components| && x in DescendAll(p, depth, above)
    ensures o in above && x in Descend(p, depth, o)
    decreases |above|
  {
    if x in Descend(p, depth, above[0]) { o := above[0]; }
    else { o := DescendAllSound(p, depth, above[1..], x); }
  }

  lemma {:induction false} DescendAllComplete(p: Pattern, depth: nat, above: seq<Option<File>>,
                                              o: Option<File>, x: Option<File>)
    requires depth < |p.components| && o in above && x in Descend(p, depth, o)
    ensures x in DescendAll(p, depth, above)
    decreases |above|
  {
    if o != above[0] { DescendAllComplete(p, depth, above[1..], o, x); }
  }

  /** The files returned are exactly the files whose path matches, at every depth and in every tree. */
  lemma {:induction false} ResultsAreMatches(p: Pattern, root: Node, depth: nat, f: File)
    requires depth < |p.components|
    ensures Some(f) in Results(p, root, depth) <==> IsMatch(p, root, f, depth)
  {
    if Some(f) in Results(p, root, depth) { ResultsSound(p, root, depth, f); }
    if IsMatch(p, root, f, depth) { ResultsComplete(p, root, depth, f); }
  }

  lemma {:induction false} ResultsSound(p: Pattern, root: Node, depth: nat, f: File)
    requires depth < |p.components| && Some(f) in Results(p, root, depth)
    ensures IsMatch(p, root, f, depth)
  {
    var dir := File([], root);
    if depth == 0 {
      FilterSound(p, 0, dir, root.Children().value, Some(f));
    } else {
      var o := DescendAllSound(p, depth, Results(p, root, depth - 1), Some(f));
      dir := o.value;
      FilterSound(p, depth, dir, dir.node.Children().value, Some(f));
      ResultsSound(p, root, depth - 1, dir);
    }
    assert Parent(f.path) == dir.path && IsEntry(dir.node, f.node, Base(f.path));
    assert forall i :: 0 <= i < depth ==> f.path[i] == dir.path[i];
  }

  lemma {:induction false} ResultsComplete(p: Pattern, root: Node, depth: nat, f: File)
    requires depth < |p.components| && IsMatch(p, root, f, depth)
    ensures Some(f) in Results(p, root, depth)
  {
    var path := Parent(f.path);
    var node :| IsEntry(node, f.node, Base(f.path)) && Leads(root, path, node);
    assert f.path == path + [f.node.name];
    var dir := File(path, node);
    FilterComplete(p, depth, dir, node.Children().value, f.node);
    if depth > 0 {
      ResultsComplete(p, root, depth - 1, dir);
      DescendAllComplete(p, depth, Results(p, root, depth - 1), Some(dir), Some(f));
    }
  }

  function Keys(p: Pattern, path: seq<string>): seq<string> {
    seq(|path|, i requires 0 <= i < |path| => p.key(path[i]))
  }

  /** What matching is, for whole paths: with case a path is the pattern itself, and without case its
      collation keys are those of the pattern. */
  lemma {:induction false} MatchesByCase(p: Pattern, root: Node, f: File)
    requires p.components != []
    ensures Some(f) in Results(p, root, |p.components| - 1) <==>
      && Leads(root, f.path, f.node)
      && if p.ignoreCase then Keys(p, f.path) == Keys(p, p.components) else f.path == p.components
  {
    ResultsAreMatches(p, root, |p.components| - 1, f);
    var n := |p.components|;
    if p.ignoreCase && Keys(p, f.path) == Keys(p, p.components) {
      assert |Keys(p, f.path)| == |f.path| == n;
      forall i | 0 <= i < n ensures Matches(p, i, f.path[i]) {
        assert Keys(p, f.path)[i] == Keys(p, p.components)[i];
      }
    }
  }

  /** A call returns NULL before the end of the walk exactly when some matching entry above the last
      component cannot be enumerated. */
  lemma {:induction false} NullIffNotEnumerable(p: Pattern, root: Node, depth: nat)
    requires depth < |p.components|
    ensures None in Results(p, root, depth) <==>
      exists t: nat, f :: t < depth && IsMatch(p, root, f, t) && f.node.Children().None?
  {
    if depth == 0 {
      if None in Results(p, root, 0) { FilterSound(p, 0, File([], root), root.Children().value, None); }
    } else {
      var above := Results(p, root, depth - 1);
      NullIffNotEnumerable(p, root, depth - 1);
      if None in Results(p, root, depth) {
        var o := DescendAllSound(p, depth, above, None);
        if o.Some? {
          if o.value.node.Children().Some? { FilterSound(p, depth, o.value, o.value.node.Children().value, None); }
          ResultsSound(p, root, depth - 1, o.value);
        }
      }
      if t: nat, f :| t < depth && IsMatch(p, root, f, t) && f.node.Children().None? {
        if t == depth - 1 {
          ResultsComplete(p, root, t, f);
          DescendAllComplete(p, depth, above, Some(f), None);
        } else {
          DescendAllComplete(p, depth, above, None, None);
        }
      }
    }
  }

  /** If a matching entry cannot be enumerated, a caller that stops at the first NULL, as matchlet_match
      does, can miss a match: here the first call returns NULL and the second finds A/b. */
  lemma NullHidesAMatch() returns (p: Pattern, root: Node)
    ensures |p.components| == 2
    ensures Results(p, root, 1) == [None, Some(File(["A", "b"], Leaf("b")))]
  {
    p := Pattern(["a", "b"], true, (name: string) => if name == "A" then "a" else name);
    var file, leaf := Leaf("a"), Leaf("b");
    var dir := Dir("A", [leaf]);
    root := Dir("", [file, dir]);
    var top := File([], root);
    var found := Child(top, dir);
    assert Filter(p, 0, top, [dir]) == [Some(found)];
    assert [file, dir][1..] == [dir];
    assert Filter(p, 0, top, [file, dir]) == [Some(Child(top, file)), Some(found)];
    assert Filter(p, 1, found, [leaf]) == [Some(Child(found, leaf))];
    assert found.path + ["b"] == ["A", "b"];
    var above := [Some(Child(top, file)), Some(found)];
    assert above[1..] == [Some(found)] && above[1..][1..] == [];
    assert Results(p, root, 0) == above;
    assert DescendAll(p, 1, above[1..]) == Descend(p, 1, Some(found)) + DescendAll(p, 1, []);
    assert DescendAll(p, 1, above) == Descend(p, 1, above[0]) + DescendAll(p, 1, above[1..]);
  }

  // ----- each match is returned once -----

  ghost predicate UniqueNames(node: Node) {
    node.Dir? ==>
      && (forall i, j :: 0 <= i < j < |node.entries| ==> node.entries[i].name != node.entries[j].name)
      && (forall c :: c in node.entries ==> UniqueNames(c))
  }

  predicate PathsDistinct(results: seq<Option<File>>) {
    forall i, j :: 0 <= i < j < |results| && results[i].Some? && results[j].Some? ==>
      results[i].value.path != results[j].value.path
  }

  /** The files in `results` are at one depth, in directories without duplicate names. */
  ghost predicate Level(results: seq<Option<File>>, length: nat) {
    forall x :: x in results && x.Some? ==> |x.value.path| == length && UniqueNames(x.value.node)
  }

  lemma {:induction false} FilterDistinct(p: Pattern, depth: nat, dir: File, entries: seq<Node>)
    requires depth < |p.components|
    requires forall i, j :: 0 <= i < j < |entries| ==> entries[i].name != entries[j].name
    ensures PathsDistinct(Filter(p, depth, dir, entries))
    decreases |entries|
  {
    if entries != [] {
      var rest := Filter(p, depth, dir, entries[1..]);
      FilterDistinct(p, depth, dir, entries[1..]);
      forall k | 0 <= k < |rest| ensures rest[k].Some? && rest[k].value.path != Child(dir, entries[0]).path {
        FilterSound(p, depth, dir, entries[1..], rest[k]);
        assert rest[k].value.node.name != entries[0].name;
        assert Base(rest[k].value.path) != Base(Child(dir, entries[0]).path);
      }
    }
  }

  /** What comes from one directory lies in it. */
  lemma DescendLies(p: Pattern, depth: nat, o: Option<File>, x: Option<File>)
    requires depth < |p.components| && x in Descend(p, depth, o) && x.Some?
    ensures o.Some? && o.value.node.Children().Some? && x.value.node in o.value.node.Children().value
    ensures x.value == Child(o.value, x.value.node) && Parent(x.value.path) == o.value.path
  {
    FilterSound(p, depth, o.value, o.value.node.Children().value, x);
  }

  lemma {:induction false} DescendAllDistinct(p: Pattern, depth: nat, above: seq<Option<File>>)
    requires depth < |p.components| && PathsDistinct(above) && Level(above, depth)
    ensures PathsDistinct(DescendAll(p, depth, above)) && Level(DescendAll(p, depth, above), depth + 1)
    decreases |above|
  {
    if above != [] {
      var first, rest := Descend(p, depth, above[0]), DescendAll(p, depth, above[1..]);
      DescendAllDistinct(p, depth, above[1..]);
      if above[0].Some? && above[0].value.node.Children().Some? {
        FilterDistinct(p, depth, above[0].value, above[0].value.node.Children().value);
      }
      forall i, j | 0 <= i < |first| && 0 <= j < |rest| && first[i].Some? && rest[j].Some?
        ensures first[i].value.path != rest[j].value.path
      {
        DescendLies(p, depth, above[0], first[i]);
        var o := DescendAllSound(p, depth, above[1..], rest[j]);
        DescendLies(p, depth, o, rest[j]);
        var k :| 0 <= k < |above[1..]| && above[1..][k] == o;
        assert above[k + 1] == o;
      }
      forall x | x in first && x.Some? ensures |x.value.path| == depth + 1 && UniqueNames(x.value.node) {
        DescendLies(p, depth, above[0], x);
      }
    }
  }

  lemma {:induction false} EachMatchOnce(p: Pattern, root: Node, depth: nat)
    requires depth < |p.components| && UniqueNames(root)
    ensures PathsDistinct(Results(p, root, depth)) && Level(Results(p, root, depth), depth + 1)
  {
    if depth > 0 {
      EachMatchOnce(p, root, depth - 1);
      DescendAllDistinct(p, depth, Results(p, root, depth - 1));
    } else if root.Children().Some? {
      TopLevel(p, File([], root), root.Children().value);
    }
  }

  lemma {:induction false} TopLevel(p: Pattern, dir: File, entries: seq<Node>)
    requires p.components != [] && dir.path == [] && dir.node == Dir(dir.node.name, entries) && UniqueNames(dir.node)
    ensures PathsDistinct(Filter(p, 0, dir, entries)) && Level(Filter(p, 0, dir, entries), 1)
  {
    FilterDistinct(p, 0, dir, entries);
    forall x | x in Filter(p, 0, dir, entries) && x.Some? ensures |x.value.path| == 1 && UniqueNames(x.value.node) {
      FilterSound(p, 0, dir, entries, x);
    }
  }

  // ----- in depth-first order -----

  /** The natural recursive walk: every matching entry is followed to the last depth before the next. */
  function Walk(p: Pattern, last: nat, depth: nat, dir: File, entries: seq<Node>): seq<Option<File>>
    requires depth <= last < |p.components|
    decreases last - depth, |entries|
  {
    if entries == [] then []
    else FirstWalk(p, last, depth, dir, entries[0]) + Walk(p, last, depth, dir, entries[1..])
  }

  /** What the first entry contributes to it. */
  function FirstWalk(p: Pattern, last: nat, depth: nat, dir: File, entry: Node): seq<Option<File>>
    requires depth <= last < |p.components|
    decreases last - depth, 0
  {
    if !Matches(p, depth, entry.name) then []
    else if depth == last then [Some(Child(dir, entry))]
    else if entry.Leaf? then [None]
    else Walk(p, last, depth + 1, Child(dir, entry), entry.entries)
  }

  /** All levels from one depth down to the last. */
  function Down(p: Pattern, last: nat, depth: nat, results: seq<Option<File>>): seq<Option<File>>
    requires depth <= last < |p.components|
    decreases last - depth
  {
    if depth == last then results else Down(p, last, depth + 1, DescendAll(p, depth + 1, results))
  }

  lemma JoinAssoc(a: seq<Option<File>>, b: seq<Option<File>>, c: seq<Option<File>>)
    ensures a + b + c == a + (b + c)
  {
  }

  lemma {:induction false} DescendAllCons(p: Pattern, depth: nat, o: Option<File>, rest: seq<Option<File>>)
    requires depth < |p.components|
    ensures DescendAll(p, depth, [o] + rest) == Descend(p, depth, o) + DescendAll(p, depth, rest)
  {
    assert ([o] + rest)[1..] == rest;
  }

  lemma {:induction false} DescendAllConcat(p: Pattern, depth: nat, a: seq<Option<File>>, b: seq<Option<File>>)
    requires depth < |p.components|
    ensures DescendAll(p, depth, a + b) == DescendAll(p, depth, a) + DescendAll(p, depth, b)
    decreases |a|
  {
    if a == [] {
      assert a + b == b;
    } else {
      var o, tail := a[0], a[1..];
      assert a == [o] + tail && a + b == [o] + (tail + b);
      DescendAllConcat(p, depth, tail, b);
      DescendAllCons(p, depth, o, tail + b);
      JoinAssoc(Descend(p, depth, o), DescendAll(p, depth, tail), DescendAll(p, depth, b));
    }
  }

  lemma {:induction false} DownConcat(p: Pattern, last: nat, depth: nat, a: seq<Option<File>>, b: seq<Option<File>>)
    requires depth <= last < |p.components|
    ensures Down(p, last, depth, a + b) == Down(p, last, depth, a) + Down(p, last, depth, b)
    decreases last - depth
  {
    if depth < last {
      DescendAllConcat(p, depth + 1, a, b);
      DownConcat(p, last, depth + 1, DescendAll(p, depth + 1, a), DescendAll(p, depth + 1, b));
    }
  }

  lemma {:induction false} DownOne(p: Pattern, last: nat, depth: nat, o: Option<File>)
    requires depth < last < |p.components|
    ensures Down(p, last, depth, [o]) == Down(p, last, depth + 1, Descend(p, depth + 1, o))
  {
    assert [o][1..] == [];
    assert DescendAll(p, depth + 1, [o]) == Descend(p, depth + 1, o);
  }

  lemma {:induction false} DownNull(p: Pattern, last: nat, depth: nat)
    requires depth <= last < |p.components|
    ensures Down(p, last, depth, [None]) == [None] && Down(p, last, depth, []) == []
    decreases last - depth
  {
    if depth < last {
      DownOne(p, last, depth, None);
      DownNull(p, last, depth + 1);
    }
  }

  lemma {:induction false} WalkIsDown(p: Pattern, last: nat, depth: nat, dir: File, entries: seq<Node>)
    requires depth <= last < |p.components|
    ensures Walk(p, last, depth, dir, entries) == Down(p, last, depth, Filter(p, depth, dir, entries))
    decreases last - depth, |entries|
  {
    if entries == [] {
      DownNull(p, last, depth);
    } else {
      var child, rest := Child(dir, entries[0]), Filter(p, depth, dir, entries[1..]);
      var first := if Matches(p, depth, child.node.name) then [Some(child)] else [];
      FirstIsDown(p, last, depth, dir, entries[0]);
      WalkIsDown(p, last, depth, dir, entries[1..]);
      DownConcat(p, last, depth, first, rest);
    }
  }

  lemma {:induction false} FirstIsDown(p: Pattern, last: nat, depth: nat, dir: File, entry: Node)
    requires depth <= last < |p.components|
    ensures FirstWalk(p, last, depth, dir, entry) ==
            Down(p, last, depth, if Matches(p, depth, entry.name) then [Some(Child(dir, entry))] else [])
    decreases last - depth, 0
  {
    if !Matches(p, depth, entry.name) {
      DownNull(p, last, depth);
    } else if depth < last {
      DownOne(p, last, depth, Some(Child(dir, entry)));
      if entry.Leaf? {
        DownNull(p, last, depth + 1);
      } else {
        WalkIsDown(p, last, depth + 1, Child(dir, entry), entry.entries);
      }
    }
  }

  lemma {:induction false} ResultsIsDown(p: Pattern, root: Node, last: nat, depth: nat)
    requires depth <= last < |p.components|
    ensures Results(p, root, last) == Down(p, last, depth, Results(p, root, depth))
    decreases last - depth
  {
    if depth < last { ResultsIsDown(p, root, last, depth + 1); }
  }

  /** The calls return the matches in depth-first order. */
  lemma DepthFirst(p: Pattern, root: Node, last: nat)
    requires last < |p.components|
    ensures Results(p, root, last) ==
      if root.Children().None? then [] else Walk(p, last, 0, File([], root), root.Children().value)
  {
    ResultsIsDown(p, root, last, 0);
    DownNull(p, last, 0);
    if root.Children().Some? { WalkIsDown(p, last, 0, File([], root), root.Children().value); }
  }

  // ----- what a caller misses that stops at the first NULL -----

  /** A route names one entry of each directory on the way by its index.  All of them match. */
  predicate Goes(p: Pattern, depth: nat, entries: seq<Node>, route: seq<nat>)
    decreases |route|
  {
    && route != [] && depth < |p.components| && route[0] < |entries|
    && Matches(p, depth, entries[route[0]].name)
    && (|route| > 1 ==> entries[route[0]].Dir? && Goes(p, depth + 1, entries[route[0]].entries, route[1..]))
  }

  function Target(p: Pattern, depth: nat, entries: seq<Node>, route: seq<nat>): Node
    requires Goes(p, depth, entries, route)
    decreases |route|
  {
    if |route| == 1 then entries[route[0]] else Target(p, depth + 1, entries[route[0]].entries, route[1..])
  }

  /** The route arrives at a match at the last depth, or, above it, at something not enumerable. */
  predicate Ends(p: Pattern, last: nat, depth: nat, entries: seq<Node>, route: seq<nat>, hit: bool)
    requires depth <= last
  {
    && Goes(p, depth, entries, route)
    && if hit then |route| == last - depth + 1
       else |route| <= last - depth && Target(p, depth, entries, route).Leaf?
  }

  /** One route is met before the other: at their first difference it takes the earlier entry. */
  predicate Before(r: seq<nat>, q: seq<nat>)
    decreases |r|
  {
    && r != [] && q != []
    && (r[0] < q[0] || (r[0] == q[0] && Before(r[1..], q[1..])))
  }

  lemma {:induction false} BeforeIsStrict(r: seq<nat>, q: seq<nat>)
    requires Before(r, q)
    ensures r != q && !Before(q, r)
    decreases |r|
  {
    if r[0] == q[0] { BeforeIsStrict(r[1..], q[1..]); }
  }

  /** The same route seen from one directory higher, through its first entry. */
  function Entered(routes: seq<seq<nat>>): seq<seq<nat>> {
    seq(|routes|, i requires 0 <= i < |routes| => [0] + routes[i])
  }

  /** The same route when one more entry precedes those it chooses from. */
  function Shift(route: seq<nat>): seq<nat> {
    if route == [] then [] else [route[0] + 1] + route[1..]
  }

  function Shifted(routes: seq<seq<nat>>): seq<seq<nat>> {
    seq(|routes|, i requires 0 <= i < |routes| => Shift(routes[i]))
  }

  lemma EnteredHas(routes: seq<seq<nat>>, route: seq<nat>)
    requires route in routes
    ensures [0] + route in Entered(routes)
  {
    var i :| 0 <= i < |routes| && routes[i] == route;
    assert Entered(routes)[i] == [0] + route;
  }

  lemma ShiftedHas(routes: seq<seq<nat>>, route: seq<nat>)
    requires route in routes
    ensures Shift(route) in Shifted(routes)
  {
    var i :| 0 <= i < |routes| && routes[i] == route;
    assert Shifted(routes)[i] == Shift(route);
  }

  /** The routes that lead to the results of a walk, one for one. */
  function Routes(p: Pattern, last: nat, depth: nat, entries: seq<Node>): seq<seq<nat>>
    requires depth <= last < |p.components|
    decreases last - depth, |entries|
  {
    if entries == [] then []
    else FirstRoutes(p, last, depth, entries[0]) + Shifted(Routes(p, last, depth, entries[1..]))
  }

  function FirstRoutes(p: Pattern, last: nat, depth: nat, entry: Node): seq<seq<nat>>
    requires depth <= last < |p.components|
    decreases last - depth, 0
  {
    if !Matches(p, depth, entry.name) then []
    else if depth == last || entry.Leaf? then [[0]]
    else Entered(Routes(p, last, depth + 1, entry.entries))
  }

  lemma EnterRoute(p: Pattern, last: nat, depth: nat, entries: seq<Node>, route: seq<nat>, hit: bool)
    requires depth < last < |p.components| && entries != [] && entries[0].Dir? && Matches(p, depth, entries[0].name)
    requires Ends(p, last, depth + 1, entries[0].entries, route, hit)
    ensures Ends(p, last, depth, entries, [0] + route, hit)
  {
    assert ([0] + route)[1..] == route;
  }

  lemma ShiftRoute(p: Pattern, last: nat, depth: nat, entries: seq<Node>, route: seq<nat>, hit: bool)
    requires depth <= last < |p.components| && entries != []
    requires Ends(p, last, depth, entries[1..], route, hit)
    ensures Ends(p, last, depth, entries, Shift(route), hit)
  {
    assert Shift(route)[1..] == route[1..];
    assert entries[route[0] + 1] == entries[1..][route[0]];
  }

  /** Each result has a route that ends accordingly. */
  lemma {:induction false} RoutesEnd(p: Pattern, last: nat, depth: nat, dir: File, entries: seq<Node>, i: nat)
    requires depth <= last < |p.components|
    ensures |Routes(p, last, depth, entries)| == |Walk(p, last, depth, dir, entries)|
    ensures i < |Routes(p, last, depth, entries)| ==>
      Ends(p, last, depth, entries, Routes(p, last, depth, entries)[i], Walk(p, last, depth, dir, entries)[i].Some?)
    decreases last - depth, |entries|, 1
  {
    if entries != [] {
      var first, rest := FirstRoutes(p, last, depth, entries[0]), Routes(p, last, depth, entries[1..]);
      FirstRoutesEnd(p, last, depth, dir, entries, i);
      RoutesEnd(p, last, depth, dir, entries[1..], if i < |first| then 0 else i - |first|);
      if |first| <= i < |first| + |rest| {
        ShiftRoute(p, last, depth, entries, rest[i - |first|],
                   Walk(p, last, depth, dir, entries[1..])[i - |first|].Some?);
      }
    }
  }

  lemma {:induction false} FirstRoutesEnd(p: Pattern, last: nat, depth: nat, dir: File, entries: seq<Node>, i: nat)
    requires depth <= last < |p.components| && entries != []
    ensures |FirstRoutes(p, last, depth, entries[0])| == |FirstWalk(p, last, depth, dir, entries[0])|
    ensures i < |FirstRoutes(p, last, depth, entries[0])| ==>
      Ends(p, last, depth, entries, FirstRoutes(p, last, depth, entries[0])[i],
           FirstWalk(p, last, depth, dir, entries[0])[i].Some?)
    decreases last - depth, |entries|, 0
  {
    var entry := entries[0];
    if depth < last && entry.Dir? && Matches(p, depth, entry.name) {
      RoutesEnd(p, last, depth + 1, Child(dir, entry), entry.entries, i);
      if i < |Routes(p, last, depth + 1, entry.entries)| {
        EnterRoute(p, last, depth, entries, Routes(p, last, depth + 1, entry.entries)[i],
                   Walk(p, last, depth + 1, Child(dir, entry), entry.entries)[i].Some?);
      }
    }
  }

  predicate Ordered(routes: seq<seq<nat>>) {
    forall i, j :: 0 <= i < j < |routes| ==> Before(routes[i], routes[j])
  }

  lemma EnteredOrdered(routes: seq<seq<nat>>)
    requires Ordered(routes)
    ensures Ordered(Entered(routes))
  {
    forall i, j | 0 <= i < j < |routes| ensures Before([0] + routes[i], [0] + routes[j]) {
      assert ([0] + routes[i])[1..] == routes[i] && ([0] + routes[j])[1..] == routes[j];
    }
  }

  lemma ShiftedOrdered(routes: seq<seq<nat>>)
    requires Ordered(routes)
    ensures Ordered(Shifted(routes))
  {
    forall i, j | 0 <= i < j < |routes| ensures Before(Shift(routes[i]), Shift(routes[j])) {
      assert Before(routes[i], routes[j]);
      assert Shift(routes[i])[1..] == routes[i][1..] && Shift(routes[j])[1..] == routes[j][1..];
    }
  }

  /** The results of a walk come in the order of their routes. */
  lemma {:induction false} RoutesOrdered(p: Pattern, last: nat, depth: nat, entries: seq<Node>)
    requires depth <= last < |p.components|
    ensures Ordered(Routes(p, last, depth, entries))
    ensures forall i :: 0 <= i < |Routes(p, last, depth, entries)| ==> Routes(p, last, depth, entries)[i] != []
    decreases last - depth, |entries|
  {
    if entries != [] {
      var first, rest := FirstRoutes(p, last, depth, entries[0]), Routes(p, last, depth, entries[1..]);
      RoutesOrdered(p, last, depth, entries[1..]);
      ShiftedOrdered(rest);
      if depth < last && entries[0].Dir? {
        RoutesOrdered(p, last, depth + 1, entries[0].entries);
        EnteredOrdered(Routes(p, last, depth + 1, entries[0].entries));
      }
      assert forall i :: 0 <= i < |first| ==> first[i] != [] && first[i][0] == 0;
      assert forall j :: 0 <= j < |rest| ==> Shifted(rest)[j] != [] && Shifted(rest)[j][0] > 0;
    }
  }

  /** No other route ends in a match or in something not enumerable. */
  lemma {:induction false} RoutesComplete(p: Pattern, last: nat, depth: nat, entries: seq<Node>, route: seq<nat>, hit: bool)
    requires depth <= last < |p.components| && Ends(p, last, depth, entries, route, hit)
    ensures route in Routes(p, last, depth, entries)
    decreases last - depth, |entries|
  {
    if route[0] > 0 {
      var back := Unshift(p, last, depth, entries, route, hit);
      RoutesComplete(p, last, depth, entries[1..], back, hit);
      ShiftedHas(Routes(p, last, depth, entries[1..]), back);
    } else if |route| == 1 {
      assert route == [0] && FirstRoutes(p, last, depth, entries[0]) == [[0]];
    } else {
      RoutesComplete(p, last, depth + 1, entries[0].entries, route[1..], hit);
      EnteredHas(Routes(p, last, depth + 1, entries[0].entries), route[1..]);
      assert route == [0] + route[1..];
    }
  }

  lemma Unshift(p: Pattern, last: nat, depth: nat, entries: seq<Node>, route: seq<nat>, hit: bool)
      returns (back: seq<nat>)
    requires depth <= last < |p.components| && Ends(p, last, depth, entries, route, hit) && route[0] > 0
    ensures Ends(p, last, depth, entries[1..], back, hit) && Shift(back) == route
  {
    back := [route[0] - 1] + route[1..];
    assert back[1..] == route[1..] && entries[1..][back[0]] == entries[route[0]];
  }

  /** Some call returns NULL although a later one returns a file. */
  ghost predicate Hides(results: seq<Option<File>>) {
    exists i, j :: 0 <= i < j < |results| && results[i].None? && results[j].Some?
  }

  /** Route r ends above the last component at something not enumerable, and is met before route q,
      which ends in a match. */
  predicate Blocks(p: Pattern, last: nat, entries: seq<Node>, r: seq<nat>, q: seq<nat>) {
    Ends(p, last, 0, entries, r, false) && Ends(p, last, 0, entries, q, true) && Before(r, q)
  }

  lemma HiddenIsBlocked(p: Pattern, last: nat, dir: File, entries: seq<Node>, i: nat, j: nat)
    requires last < |p.components| && i < j < |Walk(p, last, 0, dir, entries)|
    requires Walk(p, last, 0, dir, entries)[i].None? && Walk(p, last, 0, dir, entries)[j].Some?
    ensures j < |Routes(p, last, 0, entries)|
    ensures Blocks(p, last, entries, Routes(p, last, 0, entries)[i], Routes(p, last, 0, entries)[j])
  {
    RoutesOrdered(p, last, 0, entries);
    RoutesEnd(p, last, 0, dir, entries, i);
    RoutesEnd(p, last, 0, dir, entries, j);
  }

  /** The place of a route's end among the results. */
  lemma RouteFound(p: Pattern, last: nat, dir: File, entries: seq<Node>, route: seq<nat>, hit: bool)
      returns (i: nat)
    requires last < |p.components| && Ends(p, last, 0, entries, route, hit)
    ensures i < |Routes(p, last, 0, entries)| == |Walk(p, last, 0, dir, entries)|
    ensures Routes(p, last, 0, entries)[i] == route && Walk(p, last, 0, dir, entries)[i].Some? == hit
  {
    RoutesComplete(p, last, 0, entries, route, hit);
    i :| i < |Routes(p, last, 0, entries)| && Routes(p, last, 0, entries)[i] == route;
    RoutesEnd(p, last, 0, dir, entries, i);
  }

  lemma BlockedIsHidden(p: Pattern, last: nat, dir: File, entries: seq<Node>, r: seq<nat>, q: seq<nat>)
    requires last < |p.components| && Blocks(p, last, entries, r, q)
    ensures Hides(Walk(p, last, 0, dir, entries))
  {
    var i := RouteFound(p, last, dir, entries, r, false);
    var j := RouteFound(p, last, dir, entries, q, true);
    RoutesOrdered(p, last, 0, entries);
    BeforeIsStrict(r, q);
    var walk := Walk(p, last, 0, dir, entries);
    assert i < j && walk[i].None? && walk[j].Some?;
  }

  /** A caller that stops at the first NULL misses a match exactly if a matching entry above the last
      component cannot be enumerated and is met before a full match. */
  lemma StoppingMissesAMatch(p: Pattern, root: Node, last: nat)
    requires last < |p.components|
    ensures Hides(Results(p, root, last)) <==> root.Dir? && exists r, q :: Blocks(p, last, root.entries, r, q)
  {
    DepthFirst(p, root, last);
    if root.Dir? {
      var dir := File([], root);
      var walk := Walk(p, last, 0, dir, root.entries);
      if i, j :| 0 <= i < j < |walk| && walk[i].None? && walk[j].Some? {
        HiddenIsBlocked(p, last, dir, root.entries, i, j);
      }
      if r, q :| Blocks(p, last, root.entries, r, q) {
        BlockedIsHidden(p, last, dir, root.entries, r, q);
      }
    }
  }

  /** Over a tree without duplicate names in which every matching entry above the last component is a
      directory, the walk returns every match, each at one place, and no NULL before its end. */
  lemma CompleteWalk(p: Pattern, root: Node, last: nat)
    requires last < |p.components| && UniqueNames(root)
    requires forall t: nat, f :: t < last && IsMatch(p, root, f, t) ==> f.node.Dir?
    ensures forall i :: 0 <= i < |Results(p, root, last)| ==>
      Results(p, root, last)[i].Some? && IsMatch(p, root, Results(p, root, last)[i].value, last)
    ensures forall f :: IsMatch(p, root, f, last) ==> Some(f) in Results(p, root, last)
    ensures PathsDistinct(Results(p, root, last))
  {
    var results := Results(p, root, last);
    EachMatchOnce(p, root, last);
    NullIffNotEnumerable(p, root, last);
    forall i | 0 <= i < |results| ensures results[i].Some? && IsMatch(p, root, results[i].value, last) {
      assert results[i] in results;
      ResultsSound(p, root, last, results[i].value);
    }
    forall f | IsMatch(p, root, f, last) ensures Some(f) in results { ResultsComplete(p, root, last, f); }
  }
}
