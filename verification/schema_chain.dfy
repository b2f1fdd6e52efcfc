/** The migration graph a wheel carries, and when one wheel's schema continues another's. */
module SchemaChain {
  import opened Basics

  /** A literal assignment as read from a migration file. */
  datatype Value = Absent | Nothing | Text(text: string) | Other

  /** A member of the wheel: not a migration, or a file of the versions directory. */
  datatype Member =
    | Foreign
    | Script(package: bool, revision: Value, parent: Value, branches: Value, depends: Value)

  type Graph = map<string, Option<string>>

  datatype Wheel = Wheel(applicationId: int, head: string, revisions: Graph)

  const APPLICATION_ID := 0x5053434E

  predicate IsNameCharacter(c: char) {
    'a' <= c <= 'z' || 'A' <= c <= 'Z' || '0' <= c <= '9' || c == '_'
  }

  /** A package marker without assignments is passed over. */
  predicate Counts(m: Member) {
    m.Script? && !(m.package && m.revision.Absent? && m.parent.Absent? && m.branches.Absent? && m.depends.Absent?)
  }

  predicate WellFormed(m: Member) {
    && m.Script? && m.revision.Text? && 1 <= |m.revision.text| <= 128
    && (forall i :: 0 <= i < |m.revision.text| ==> IsNameCharacter(m.revision.text[i]))
    && (m.parent.Nothing? || m.parent.Text?) && (m.branches.Absent? || m.branches.Nothing?)
    && (m.depends.Absent? || m.depends.Nothing?)
  }

  function ParentOf(m: Member): Option<string> {
    if m.Script? && m.parent.Text? then Some(m.parent.text) else None
  }

  predicate Clash(a: Member, b: Member) {
    Counts(a) && Counts(b) && WellFormed(a) && WellFormed(b) && a.revision == b.revision
  }

  /** Nothing malformed, and no revision declared twice. */
  ghost predicate Readable(members: seq<Member>) {
    && (forall i :: 0 <= i < |members| && Counts(members[i]) ==> WellFormed(members[i]))
    && (forall i, j :: 0 <= i < j < |members| ==> !Clash(members[i], members[j]))
  }

  predicate Declares(m: Member, revision: string) {
    Counts(m) && WellFormed(m) && m.revision.text == revision
  }

  predicate Declared(members: seq<Member>, revision: string) {
    exists i :: 0 <= i < |members| && Declares(members[i], revision)
  }

  /** The graph says exactly what the files say. */
  ghost predicate Describes(graph: Graph, members: seq<Member>) {
    && (forall i :: 0 <= i < |members| && Counts(members[i]) && WellFormed(members[i]) ==>
         members[i].revision.text in graph && graph[members[i].revision.text] == ParentOf(members[i]))
    && (forall r :: r in graph ==> Declared(members, r))
  }

  lemma DescriptionIsUnique(a: Graph, b: Graph, members: seq<Member>)
    requires Describes(a, members) && Describes(b, members)
    ensures a == b
  {
    forall r | r in a || r in b ensures r in a && r in b && a[r] == b[r] {
      assert Declared(members, r);
      var i :| 0 <= i < |members| && Declares(members[i], r);
    }
  }

  lemma DeclaredGrows(members: seq<Member>, m: Member, revision: string)
    ensures Declared(members + [m], revision) <==> Declared(members, revision) || Declares(m, revision)
  {
    var more := members + [m];
    if Declared(members, revision) {
      var i :| 0 <= i < |members| && Declares(members[i], revision);
      assert Declares(more[i], revision);
    }
    if Declares(m, revision) {
      assert more[|members|] == m;
    }
    if Declared(more, revision) {
      var i :| 0 <= i < |more| && Declares(more[i], revision);
      assert i < |members| ==> members[i] == more[i];
    }
  }

  lemma AddRevision(graph: Graph, members: seq<Member>, m: Member)
    requires Readable(members) && Describes(graph, members)
    requires Counts(m) ==> WellFormed(m) && m.revision.text !in graph
    ensures Readable(members + [m])
    ensures Describes(if Counts(m) then graph[m.revision.text := ParentOf(m)] else graph, members + [m])
  {
    var more := members + [m];
    if Counts(m) {
      forall j | 0 <= j < |members| && Counts(members[j]) && WellFormed(members[j])
        ensures members[j].revision != m.revision {
        assert members[j].revision.text in graph;
      }
    }
    forall i, j | 0 <= i < j < |more| ensures !Clash(more[i], more[j]) {
      assert j < |members| ==> !Clash(members[i], members[j]);
    }
    forall r ensures Declared(more, r) <==> Declared(members, r) || Declares(m, r) { DeclaredGrows(members, m, r); }
  }

  /** The first loop of `migration_graph`: a graph exactly if the files are readable. */
  method ReadRevisions(members: seq<Member>) returns (r: Option<Graph>)
    ensures r.Some? <==> Readable(members)
    ensures r.Some? ==> Describes(r.value, members)
  {
    var graph: Graph := map[];
    for i := 0 to |members|
      invariant Readable(members[..i]) && Describes(graph, members[..i])
    {
      var m := members[i];
      if Counts(m) {
        if !WellFormed(m) {
          return None;
        }
        if m.revision.text in graph {
          assert Declared(members[..i], m.revision.text);
          var j :| 0 <= j < |members[..i]| && Declares(members[..i][j], m.revision.text);
          assert Clash(members[j], members[i]);
          return None;
        }
      }
      AddRevision(graph, members[..i], m);
      assert members[..i + 1] == members[..i] + [m];
      if Counts(m) {
        graph := graph[m.revision.text := ParentOf(m)];
      }
    }
    assert members[..|members|] == members;
    r := Some(graph);
  }

  // ------------------------------------------------------------------ one chain

  predicate Distinct(path: seq<string>) {
    forall i, j :: 0 <= i < j < |path| ==> path[i] != path[j]
  }

  function Follow(graph: Graph, r: string): Option<string> {
    if r in graph then graph[r] else None
  }

  /** A walk from the head along parents, with the next revision to visit. */
  predicate Walked(graph: Graph, head: string, path: seq<string>, cursor: Option<string>) {
    && (forall i :: 0 <= i < |path| ==> path[i] in graph)
    && (if path == [] then cursor == Some(head) else path[0] == head && cursor == Follow(graph, path[|path| - 1]))
    && (forall i :: 0 <= i < |path| - 1 ==> StepAt(graph, path, i))
  }

  predicate StepAt(graph: Graph, path: seq<string>, i: int)
    requires 0 <= i < |path| - 1
  {
    Follow(graph, path[i]) == Some(path[i + 1])
  }

  /** The whole graph is one line from the head to a root. */
  predicate Chain(graph: Graph, head: string, chain: seq<string>) {
    && Walked(graph, head, chain, None) && Distinct(chain)
    && (forall r :: r in graph ==> r in chain)
  }

  lemma {:induction false} WalkIsPrefix(graph: Graph, head: string, path: seq<string>, cursor: Option<string>,
    chain: seq<string>)
    requires Walked(graph, head, path, cursor) && Chain(graph, head, chain)
    ensures |path| <= |chain| && path == chain[..|path|]
    ensures cursor == if |path| < |chain| then Some(chain[|path|]) else None
  {
    if path != [] {
      var n := |path| - 1;
      var shorter := path[..n];
      assert n > 0 ==> StepAt(graph, path, n - 1);
      forall i | 0 <= i < |shorter| - 1 ensures StepAt(graph, shorter, i) { assert StepAt(graph, path, i); }
      assert Walked(graph, head, shorter, Some(path[n]));
      WalkIsPrefix(graph, head, shorter, Some(path[n]), chain);
      assert path == shorter + [path[n]];
      assert n + 1 < |chain| ==> StepAt(graph, chain, n);
    }
  }

  /** The chain of an accepted graph is unique. */
  lemma ChainIsUnique(graph: Graph, head: string, a: seq<string>, b: seq<string>)
    requires Chain(graph, head, a) && Chain(graph, head, b)
    ensures a == b
  {
    WalkIsPrefix(graph, head, a, None, b);
    WalkIsPrefix(graph, head, b, None, a);
  }

  lemma DistinctFits(path: seq<string>, keys: set<string>)
    requires Distinct(path) && forall i :: 0 <= i < |path| ==> path[i] in keys
    ensures |path| <= |keys|
  {
    if path != [] {
      var n := |path| - 1;
      DistinctFits(path[..n], keys - {path[n]});
    }
  }

  /**
    The second loop: it ends, and accepts exactly the graphs that are one chain from head to root;
    a missing parent, a cycle, a branch and a second root are all refused.
  */
  method WalkChain(graph: Graph, head: string) returns (ok: bool, ghost chain: seq<string>)
    ensures ok <==> exists c :: Chain(graph, head, c)
    ensures ok ==> Chain(graph, head, chain)
  {
    var visited: set<string> := {};
    var cursor := Some(head);
    chain := [];
    while cursor.Some?
      invariant Walked(graph, head, chain, cursor) && Distinct(chain)
      invariant forall r :: r in visited <==> r in chain
      decreases |graph| - |chain|
    {
      if cursor.value !in graph || cursor.value in visited {
        forall c ensures !Chain(graph, head, c) {
          if Chain(graph, head, c) {
            WalkIsPrefix(graph, head, chain, cursor, c);
            assert false;
          }
        }
        return false, chain;
      }
      visited := visited + {cursor.value};
      ghost var longer := chain + [cursor.value];
      forall i | 0 <= i < |longer| - 1 ensures StepAt(graph, longer, i) {
        assert i < |chain| - 1 ==> StepAt(graph, chain, i);
      }
      chain := longer;
      DistinctFits(chain, graph.Keys);
      cursor := graph[cursor.value];
    }
    ok := visited == graph.Keys;
    if ok {
      assert Chain(graph, head, chain);
    } else {
      forall c ensures !Chain(graph, head, c) {
        if Chain(graph, head, c) {
          WalkIsPrefix(graph, head, chain, None, c);
          assert false;
        }
      }
    }
  }

  /** Somebody reading the files would find one chain from the head to a root. */
  ghost predicate OneChain(members: seq<Member>, head: string) {
    exists graph, chain :: Describes(graph, members) && Chain(graph, head, chain)
  }

  // ------------------------------------------------------- acceptance over the files

  /** ASCII digits, letters and the underscore. */
  predicate InName(code: int) {
    48 <= code <= 57 || 65 <= code <= 90 || code == 95 || 97 <= code <= 122
  }

  /** A package marker that assigns nothing. */
  const MARKER := Script(true, Absent, Absent, Absent, Absent)

  /** The file of one revision of a chain, newest first: its name, the next as its parent, no branch, no dependency. */
  predicate IsFile(m: Member, chain: seq<string>, k: int)
    requires 0 <= k < |chain|
  {
    && m.Script? && m.revision == Text(chain[k])
    && m.parent == (if k + 1 < |chain| then Text(chain[k + 1]) else Nothing)
    && (m.branches == Absent || m.branches == Nothing) && (m.depends == Absent || m.depends == Nothing)
    && 1 <= |chain[k]| <= 128 && forall j :: 0 <= j < |chain[k]| ==> InName(chain[k][j] as int)
  }

  predicate HasFile(members: seq<Member>, chain: seq<string>, k: int)
    requires 0 <= k < |chain|
  {
    exists i :: 0 <= i < |members| && IsFile(members[i], chain, k)
  }

  predicate OfChain(m: Member, chain: seq<string>) {
    exists k :: 0 <= k < |chain| && IsFile(m, chain, k)
  }

  /** Besides foreign members and empty markers there is exactly one file for each revision of the chain. */
  ghost predicate Written(members: seq<Member>, head: string, chain: seq<string>) {
    && chain != [] && chain[0] == head && Distinct(chain)
    && (forall i :: 0 <= i < |members| ==> members[i] == Foreign || members[i] == MARKER || OfChain(members[i], chain))
    && (forall k :: 0 <= k < |chain| ==> HasFile(members, chain, k))
    && (forall i, j :: 0 <= i < j < |members| && OfChain(members[i], chain) ==> !SameRevision(members[i], members[j]))
  }

  predicate SameRevision(a: Member, b: Member) {
    a.Script? && b.Script? && a.revision == b.revision
  }

  /** Accepted files are one chain written out, one file for each revision in any order, and nothing else is. */
  lemma AcceptedIsWritten(members: seq<Member>, head: string)
    ensures Readable(members) && OneChain(members, head) <==> exists chain :: Written(members, head, chain)
  {
    if Readable(members) && OneChain(members, head) {
      var graph, chain :| Describes(graph, members) && Chain(graph, head, chain);
      ReadIsWritten(members, graph, head, chain);
    }
    if exists chain :: Written(members, head, chain) {
      var chain :| Written(members, head, chain);
      WrittenIsRead(members, head, chain);
    }
  }

  lemma ReadIsWritten(members: seq<Member>, graph: Graph, head: string, chain: seq<string>)
    requires Readable(members) && Describes(graph, members) && Chain(graph, head, chain)
    ensures Written(members, head, chain)
  {
    assert chain != [];
    forall i | 0 <= i < |members| && Counts(members[i]) ensures OfChain(members[i], chain) {
      FileOnChain(members, graph, head, chain, i);
    }
    forall k | 0 <= k < |chain| ensures HasFile(members, chain, k) {
      assert Declared(members, chain[k]);
      var i :| 0 <= i < |members| && Declares(members[i], chain[k]);
      FileOnChain(members, graph, head, chain, i);
      assert IsFile(members[i], chain, k);
    }
    forall i, j | 0 <= i < j < |members| && OfChain(members[i], chain) ensures !SameRevision(members[i], members[j]) {
      assert !Clash(members[i], members[j]);
    }
  }

  lemma FileOnChain(members: seq<Member>, graph: Graph, head: string, chain: seq<string>, i: nat)
    requires Readable(members) && Describes(graph, members) && Chain(graph, head, chain)
    requires i < |members| && Counts(members[i])
    ensures exists k :: 0 <= k < |chain| && chain[k] == members[i].revision.text && IsFile(members[i], chain, k)
  {
    var m := members[i];
    assert WellFormed(m) && m.revision.text in chain;
    var k :| 0 <= k < |chain| && chain[k] == m.revision.text;
    NextOnChain(graph, head, chain, k);
    forall j | 0 <= j < |chain[k]| ensures InName(chain[k][j] as int) { assert IsNameCharacter(m.revision.text[j]); }
    assert IsFile(m, chain, k);
  }

  lemma WrittenIsRead(members: seq<Member>, head: string, chain: seq<string>)
    requires Written(members, head, chain)
    ensures Readable(members) && OneChain(members, head)
  {
    forall i | 0 <= i < |members| && Counts(members[i]) ensures WellFormed(members[i]) {
      FileIsRead(members[i], chain);
    }
    forall i, j | 0 <= i < j < |members| ensures !Clash(members[i], members[j]) {
      assert members[i] != MARKER && OfChain(members[i], chain) ==> !SameRevision(members[i], members[j]);
    }
    WrittenDescribes(members, head, chain);
    GraphOfIsChain(head, chain);
  }

  lemma FileIsRead(m: Member, chain: seq<string>)
    requires OfChain(m, chain) && Distinct(chain)
    ensures WellFormed(m) && m.revision.text in chain && GraphOf(chain)[m.revision.text] == ParentOf(m)
  {
    var k :| 0 <= k < |chain| && IsFile(m, chain, k);
    forall j | 0 <= j < |chain[k]| ensures IsNameCharacter(chain[k][j]) { assert InName(chain[k][j] as int); }
    assert GraphOf(chain)[chain[k]] == NextOn(chain, k);
  }

  lemma WrittenDescribes(members: seq<Member>, head: string, chain: seq<string>)
    requires Written(members, head, chain)
    ensures Describes(GraphOf(chain), members)
  {
    forall i | 0 <= i < |members| && Counts(members[i])
      ensures members[i].revision.Text? && members[i].revision.text in GraphOf(chain)
              && GraphOf(chain)[members[i].revision.text] == ParentOf(members[i])
    {
      FileIsRead(members[i], chain);
    }
    forall r | r in GraphOf(chain) ensures Declared(members, r) {
      var k :| 0 <= k < |chain| && chain[k] == r;
      assert HasFile(members, chain, k);
      var i :| 0 <= i < |members| && IsFile(members[i], chain, k);
      FileIsRead(members[i], chain);
      assert Declares(members[i], r);
    }
  }

  /** What follows a revision on its chain. */
  function NextOn(chain: seq<string>, k: int): Option<string>
    requires 0 <= k < |chain|
  {
    if k + 1 < |chain| then Some(chain[k + 1]) else None
  }

  /** The graph of a chain. */
  function GraphOf(chain: seq<string>): (graph: Graph)
    requires Distinct(chain)
    ensures graph.Keys == set r | r in chain
    ensures forall k :: 0 <= k < |chain| ==> graph[chain[k]] == NextOn(chain, k)
  {
    if chain == [] then map[]
    else
      var rest := chain[1..];
      assert forall k :: 1 <= k < |chain| ==> chain[k] == rest[k - 1] && NextOn(chain, k) == NextOn(rest, k - 1);
      GraphOf(rest)[chain[0] := NextOn(chain, 0)]
  }

  lemma GraphOfIsChain(head: string, chain: seq<string>)
    requires Distinct(chain) && chain != [] && chain[0] == head
    ensures Chain(GraphOf(chain), head, chain)
  {
    var graph := GraphOf(chain);
    forall i | 0 <= i < |chain| - 1 ensures StepAt(graph, chain, i) {
      assert graph[chain[i]] == NextOn(chain, i);
    }
    assert graph[chain[|chain| - 1]] == NextOn(chain, |chain| - 1);
  }

  /** `migration_graph`, with the head and application identifier it is read against. */
  method MigrationGraph(members: seq<Member>, applicationId: int, head: string)
    returns (r: Option<Wheel>, ghost chain: seq<string>)
    ensures r.Some? <==> applicationId == 0x5053434E && exists c :: Written(members, head, c)
    ensures r.Some? ==> Written(members, head, chain)
    ensures r.Some? ==> Accepted(r.value, chain) && r.value.head == head && Describes(r.value.revisions, members)
  {
    AcceptedIsWritten(members, head);
    var read := ReadRevisions(members);
    if read.None? || applicationId != APPLICATION_ID {
      return None, [];
    }
    var ok: bool;
    ok, chain := WalkChain(read.value, head);
    if !ok {
      forall graph, c | Describes(graph, members) ensures !Chain(graph, head, c) {
        DescriptionIsUnique(graph, read.value, members);
      }
    } else {
      ReadIsWritten(members, read.value, head, chain);
    }
    r := if ok then Some(Wheel(applicationId, head, read.value)) else None;
  }

  predicate Accepted(w: Wheel, chain: seq<string>) {
    w.applicationId == APPLICATION_ID && Chain(w.revisions, w.head, chain)
  }

  // -------------------------------------------------------------------- forward

  /** `require_forward_schema`. */
  predicate Forward(current: Wheel, target: Wheel) {
    && current.applicationId == target.applicationId && current.head in target.revisions
    && forall r :: r in current.revisions ==> r in target.revisions && target.revisions[r] == current.revisions[r]
  }

  /** The older end of a chain: what remains after some newest revisions. */
  predicate OlderEnd(old_: seq<string>, chain: seq<string>) {
    |old_| <= |chain| && chain[|chain| - |old_|..] == old_
  }

  /** For accepted wheels the check says: the current chain is the older end of the target's. */
  lemma ForwardIsOlderEnd(current: Wheel, c: seq<string>, target: Wheel, t: seq<string>)
    requires Accepted(current, c) && Accepted(target, t)
    ensures Forward(current, target) <==> OlderEnd(c, t)
  {
    if Forward(current, target) {
      ForwardGivesEnd(current, c, target, t);
    }
    if OlderEnd(c, t) {
      EndGivesForward(current, c, target, t);
    }
  }

  lemma ForwardGivesEnd(current: Wheel, c: seq<string>, target: Wheel, t: seq<string>)
    requires Accepted(current, c) && Accepted(target, t) && Forward(current, target)
    ensures OlderEnd(c, t)
  {
    var k :| 0 <= k < |t| && t[k] == current.head;
    TailIsWhole(current, c, target, t, k);
  }

  lemma TailIsWhole(current: Wheel, c: seq<string>, target: Wheel, t: seq<string>, k: nat)
    requires Accepted(current, c) && Accepted(target, t) && Forward(current, target)
    requires k < |t| && t[k] == current.head
    ensures |t| == k + |c| && t[k..] == c
  {
    var n := |c| - 1;
    TailFollows(current, c, target, t, k, n);
    SameNext(current, c, target, t, n, k + n);
    assert |t| == k + |c|;
    EndIs(t, k, c);
  }

  lemma EndIs(t: seq<string>, k: nat, c: seq<string>)
    requires |t| == k + |c| && forall i :: 0 <= i < |c| ==> c[i] == t[k + i]
    ensures t[k..] == c
  {
  }

  /** Where both chains stand on one revision, they go on alike. */
  lemma SameNext(current: Wheel, c: seq<string>, target: Wheel, t: seq<string>, i: nat, j: nat)
    requires Accepted(current, c) && Accepted(target, t) && Forward(current, target)
    requires i < |c| && j < |t| && c[i] == t[j]
    ensures i + 1 < |c| <==> j + 1 < |t|
    ensures i + 1 < |c| ==> c[i + 1] == t[j + 1]
  {
    NextOnChain(current.revisions, current.head, c, i);
    NextOnChain(target.revisions, target.head, t, j);
  }

  lemma NextOnChain(graph: Graph, head: string, chain: seq<string>, i: nat)
    requires Chain(graph, head, chain) && i < |chain|
    ensures chain[i] in graph && graph[chain[i]] == if i + 1 < |chain| then Some(chain[i + 1]) else None
  {
    assert i + 1 < |chain| ==> StepAt(graph, chain, i);
  }

  lemma EndGivesForward(current: Wheel, c: seq<string>, target: Wheel, t: seq<string>)
    requires Accepted(current, c) && Accepted(target, t) && OlderEnd(c, t)
    ensures Forward(current, target)
  {
    forall i | 0 <= i < |c| ensures c[i] in target.revisions && target.revisions[c[i]] == current.revisions[c[i]] {
      EndStep(current, c, target, t, i);
    }
    assert c[0] == t[|t| - |c|];
  }

  lemma EndStep(current: Wheel, c: seq<string>, target: Wheel, t: seq<string>, i: nat)
    requires Accepted(current, c) && Accepted(target, t) && OlderEnd(c, t) && i < |c|
    ensures c[i] in current.revisions && c[i] in target.revisions && target.revisions[c[i]] == current.revisions[c[i]]
  {
    var j := |t| - |c| + i;
    assert t[j] == t[|t| - |c|..][i];
    assert i + 1 < |c| ==> t[j + 1] == t[|t| - |c|..][i + 1];
    NextOnChain(current.revisions, current.head, c, i);
    NextOnChain(target.revisions, target.head, t, j);
  }

  /** From the current head on, both chains take the same steps. */
  lemma {:induction false} TailFollows(current: Wheel, c: seq<string>, target: Wheel, t: seq<string>, k: nat, n: nat)
    requires Accepted(current, c) && Accepted(target, t) && Forward(current, target)
    requires k < |t| && t[k] == current.head && n < |c|
    ensures k + n < |t| && forall i :: 0 <= i <= n ==> t[k + i] == c[i]
  {
    if n > 0 {
      TailFollows(current, c, target, t, k, n - 1);
      SameNext(current, c, target, t, n - 1, k + n - 1);
    }
  }

  /** Equal heads cannot hide a different ancestry. */
  lemma SameHeadSameGraph(current: Wheel, c: seq<string>, target: Wheel, t: seq<string>)
    requires Accepted(current, c) && Accepted(target, t) && Forward(current, target) && current.head == target.head
    ensures current == target
  {
    ForwardGivesEnd(current, c, target, t);
    var k := |t| - |c|;
    assert c[0] == t[k] && t[0] == c[0];
    assert k == 0;
    EndGivesForward(target, t, current, c);
    assert current.revisions == target.revisions;
  }
}
