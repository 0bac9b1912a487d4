/** The parent links between workflows, and the trees they form. */
module Lineage {
  import opened Types

  /** Each element after the first is a stored child of the one before it. */
  ghost predicate Chain(wf: map<Id, Row>, path: seq<Id>) {
    && |path| > 0
    && forall i :: 0 < i < |path| ==> path[i] in wf && wf[path[i]].parentId == Some(path[i - 1])
  }

  ghost predicate ChainFromTo(wf: map<Id, Row>, path: seq<Id>, root: Id, x: Id) {
    Chain(wf, path) && path[0] == root && path[|path| - 1] == x
  }

  /** `x` is `root` or a child, grandchild, ... of it. */
  ghost predicate Descends(wf: map<Id, Row>, root: Id, x: Id) {
    exists path :: ChainFromTo(wf, path, root, x)
  }

  /** The given ids with all their stored descendants. */
  ghost function Descendants(wf: map<Id, Row>, roots: set<Id>): set<Id> {
    set x | x in wf.Keys + roots && exists r :: r in roots && Descends(wf, r, x)
  }

  ghost predicate ChildOf(wf: map<Id, Row>, c: Id, p: Id) {
    c in wf && wf[c].parentId == Some(p)
  }

  /** `x` is a proper descendant of itself. */
  ghost predicate OnCycle(wf: map<Id, Row>, x: Id) {
    exists path :: |path| > 1 && ChainFromTo(wf, path, x, x)
  }

  ghost function Elements(s: seq<Id>): set<Id> {
    if s == [] then {} else Elements(s[..|s| - 1]) + {s[|s| - 1]}
  }

  lemma ElementsAppend(s: seq<Id>, x: Id)
    ensures Elements(s + [x]) == Elements(s) + {x}
  {
    assert (s + [x])[..|s|] == s;
  }

  lemma {:induction false} InElements(s: seq<Id>, x: Id)
    ensures x in s <==> x in Elements(s)
  {
    if s != [] {
      InElements(s[..|s| - 1], x);
      assert s == s[..|s| - 1] + [s[|s| - 1]];
    }
  }

  lemma DescendsSelf(wf: map<Id, Row>, x: Id)
    ensures Descends(wf, x, x)
  {
    assert ChainFromTo(wf, [x], x, x);
  }

  lemma DescendsChild(wf: map<Id, Row>, root: Id, p: Id, c: Id)
    requires Descends(wf, root, p) && ChildOf(wf, c, p)
    ensures Descends(wf, root, c)
  {
    var path :| ChainFromTo(wf, path, root, p);
    assert ChainFromTo(wf, path + [c], root, c);
  }

  /** A set that holds the roots and the children of its members holds every
      descendant of the roots. */
  lemma {:induction false} ClosedHoldsDescendant(wf: map<Id, Row>, s: set<Id>, path: seq<Id>)
    requires Chain(wf, path) && path[0] in s
    requires forall p, c :: p in s && ChildOf(wf, c, p) ==> c in s
    ensures path[|path| - 1] in s
    decreases |path|
  {
    if |path| > 1 {
      var init := path[..|path| - 1];
      ClosedHoldsDescendant(wf, s, init);
      assert ChildOf(wf, path[|path| - 1], path[|path| - 2]);
    }
  }

  lemma ClosedIsDescendants(wf: map<Id, Row>, roots: set<Id>, s: set<Id>)
    requires roots <= s <= Descendants(wf, roots)
    requires forall p, c :: p in s && ChildOf(wf, c, p) ==> c in s
    ensures s == Descendants(wf, roots)
  {
    forall x | x in Descendants(wf, roots) ensures x in s {
      var r :| r in roots && Descends(wf, r, x);
      var path :| ChainFromTo(wf, path, r, x);
      ClosedHoldsDescendant(wf, s, path);
    }
  }

  ghost function Children(wf: map<Id, Row>, p: Id): set<Id> {
    set c | c in wf && wf[c].parentId == Some(p)
  }

  /** The state of a walk down from `root`: everything listed descends from it,
      and the children listed are exactly those of the ids off the stack. */
  ghost predicate Walked(wf: map<Id, Row>, root: Id, listed: set<Id>, stacked: set<Id>) {
    && root in listed && stacked <= listed <= Descendants(wf, {root})
    && (forall p, c :: p in listed - stacked && ChildOf(wf, c, p) ==> c in listed)
    && (forall c :: c in listed && c != root ==> exists p :: p in listed - stacked && ChildOf(wf, c, p))
  }

  /** The root of an acyclic walk is nobody's child among its descendants. */
  lemma ChildNotRoot(wf: map<Id, Row>, root: Id, p: Id, c: Id)
    requires Descends(wf, root, p) && ChildOf(wf, c, p) && !OnCycle(wf, root)
    ensures c != root
  {
    var path :| ChainFromTo(wf, path, root, p);
    assert c == root ==> ChainFromTo(wf, path + [root], root, root);
  }

  lemma ChildrenUnlisted(wf: map<Id, Row>, root: Id, listed: set<Id>, stacked: set<Id>, p: Id)
    requires Walked(wf, root, listed, stacked) && p in stacked && !OnCycle(wf, root)
    ensures listed !! Children(wf, p) && Children(wf, p) <= Descendants(wf, {root})
  {
    assert Descends(wf, root, p);
    forall c | c in Children(wf, p) ensures c !in listed && Descends(wf, root, c) {
      DescendsChild(wf, root, p, c);
      ChildNotRoot(wf, root, p, c);
    }
  }

  /** Taking an id off the stack lists its children, none of which was listed:
      each has only that one parent, and the root is nobody's descendant but its
      own. */
  lemma WalkOn(wf: map<Id, Row>, root: Id, listed: set<Id>, stacked: set<Id>, p: Id)
    requires Walked(wf, root, listed, stacked) && p in stacked && !OnCycle(wf, root)
    ensures listed !! Children(wf, p)
    ensures Walked(wf, root, listed + Children(wf, p), stacked - {p} + Children(wf, p))
  {
    ChildrenUnlisted(wf, root, listed, stacked, p);
    var kids := Children(wf, p);
    var listed', stacked' := listed + kids, stacked - {p} + kids;
    assert listed' - stacked' == listed - stacked + {p};
    forall c | c in listed' && c != root ensures exists q :: q in listed' - stacked' && ChildOf(wf, c, q) {
      if c in kids { assert ChildOf(wf, c, p); }
      else {
        var q :| q in listed - stacked && ChildOf(wf, c, q);
        assert q in listed' - stacked';
      }
    }
  }

  predicate NoRepeats(s: seq<Id>) {
    forall i, j :: 0 <= i < j < |s| ==> s[i] != s[j]
  }

  lemma SubsetCard(a: set<Id>, b: set<Id>)
    requires a < b
    ensures |a| < |b|
  {
    var rest := b - a;
    assert b == a + rest;
    assert rest != {};
  }
}
