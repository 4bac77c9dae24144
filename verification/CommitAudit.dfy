/**
 The static check that repositories commit only inside their mutation wrapper
 (scripts/audit_db_writes.py), over a model of Python's syntax trees.
 */
module CommitAudit {
  import opened Wrappers

  /**
   A syntax tree.  `before` and `after` are the children of a function definition on either side of its
   body (arguments; decorators and annotations).  Every other kind of node, asynchronous functions
   included, is `Other`.
   */
  datatype Node =
    | FunctionDef(name: string, before: seq<Node>, body: seq<Node>, after: seq<Node>)
    | ClassDef(name: string, bases: seq<Node>, body: seq<Node>, after: seq<Node>)
    | Call(func: Node, args: seq<Node>, keywords: seq<Node>, line: int)
    | Attribute(value: Node, attr: string)
    | Name(id: string)
    | Other(children: seq<Node>)

  predicate IsSelf(n: Node) {
    n.Name? && n.id == "self"
  }

  predicate IsConnCommit(n: Node) {
    && n.Call? && n.func.Attribute? && n.func.attr == "commit"
    && n.func.value.Attribute? && n.func.value.attr == "_conn" && IsSelf(n.func.value.value)
  }

  /** The function that a call `self._mutate(_, f, …)` names. */
  function Wrapped(n: Node): Option<string> {
    if n.Call? && n.func.Attribute? && n.func.attr == "_mutate" && IsSelf(n.func.value)
       && |n.args| >= 2 && n.args[1].Name?
    then Some(n.args[1].id)
    else None
  }

  /** What counts as a commit: `self._conn.commit(…)`, whatever it is given. */
  lemma CommitIff(n: Node)
    ensures IsConnCommit(n) <==> exists args, keywords, line ::
              n == Call(Attribute(Attribute(Name("self"), "_conn"), "commit"), args, keywords, line)
  {
    if IsConnCommit(n) {
      assert n == Call(Attribute(Attribute(Name("self"), "_conn"), "commit"), n.args, n.keywords, n.line);
    }
  }

  /** What wraps a function: `self._mutate(_, f, …)`. */
  lemma WrappedIff(n: Node, f: string)
    ensures Wrapped(n) == Some(f) <==> exists args, keywords, line ::
              n == Call(Attribute(Name("self"), "_mutate"), args, keywords, line) && |args| >= 2 && args[1] == Name(f)
  {
    if Wrapped(n) == Some(f) {
      assert n == Call(Attribute(Name("self"), "_mutate"), n.args, n.keywords, n.line) && n.args[1] == Name(f);
    }
  }

  function Children(n: Node): seq<Node> {
    match n
    case FunctionDef(_, before, body, after) => before + body + after
    case ClassDef(_, bases, body, after) => bases + body + after
    case Call(func, args, keywords, _) => [func] + args + keywords
    case Attribute(value, _) => [value]
    case Name(_) => []
    case Other(children) => children
  }

  // ---------------------------------------------------------------------------------------------
  // The wrapped functions
  // ---------------------------------------------------------------------------------------------

  function Size(n: Node): nat
    ensures Size(n) > 0
  {
    match n
    case FunctionDef(_, before, body, after) => 1 + Sizes(before) + Sizes(body) + Sizes(after)
    case ClassDef(_, bases, body, after) => 1 + Sizes(bases) + Sizes(body) + Sizes(after)
    case Call(func, args, keywords, _) => 1 + Size(func) + Sizes(args) + Sizes(keywords)
    case Attribute(value, _) => 1 + Size(value)
    case Name(_) => 1
    case Other(children) => 1 + Sizes(children)
  }

  function Sizes(ns: seq<Node>): nat {
    if ns == [] then 0 else Size(ns[0]) + Sizes(ns[1..])
  }

  lemma {:induction false} SizesCat(a: seq<Node>, b: seq<Node>)
    ensures Sizes(a + b) == Sizes(a) + Sizes(b)
  {
    if a == [] {
      assert a + b == b;
    } else {
      assert (a + b)[1..] == a[1..] + b;
      SizesCat(a[1..], b);
    }
  }

  lemma SizeOfChildren(n: Node)
    ensures Size(n) == 1 + Sizes(Children(n))
  {
    match n
    case FunctionDef(_, before, body, after) =>
      SizesCat(before, body);
      SizesCat(before + body, after);
    case ClassDef(_, bases, body, after) =>
      SizesCat(bases, body);
      SizesCat(bases + body, after);
    case Call(func, args, keywords, _) =>
      SizesCat([func], args);
      SizesCat([func] + args, keywords);
    case Attribute(value, _) =>
    case Name(_) =>
    case Other(_) =>
  }

  /** A way down the tree: every node is a child of the one before it. */
  ghost predicate IsPath(p: seq<Node>) {
    p != [] && forall i :: 0 <= i < |p| - 1 ==> p[i + 1] in Children(p[i])
  }

  /** The node lies somewhere in one of the trees. */
  ghost predicate Within(n: Node, roots: seq<Node>) {
    exists p :: IsPath(p) && p[0] in roots && p[|p| - 1] == n
  }

  /** Some call in the trees wraps the function. */
  ghost predicate Wraps(roots: seq<Node>, name: string) {
    exists n :: Within(n, roots) && Wrapped(n) == Some(name)
  }

  lemma PathTail(p: seq<Node>)
    requires IsPath(p) && |p| >= 2
    ensures IsPath(p[1..]) && p[1] in Children(p[0]) && p[1..][0] == p[1] && p[1..][|p| - 2] == p[|p| - 1]
  {
  }

  lemma PathCons(n: Node, p: seq<Node>)
    requires IsPath(p) && p[0] in Children(n)
    ensures IsPath([n] + p)
  {
    var q := [n] + p;
    assert forall i :: 0 < i < |q| ==> q[i] == p[i - 1];
  }

  lemma WithinUp(p: seq<Node>, todo: seq<Node>)
    requires todo != [] && IsPath(p) && p[0] in todo[1..] + Children(todo[0])
    ensures Within(p[|p| - 1], todo)
  {
    var n := p[|p| - 1];
    if p[0] in todo[1..] {
      assert p[0] in todo;
    } else {
      PathCons(todo[0], p);
      var q := [todo[0]] + p;
      assert q[0] in todo && q[|q| - 1] == n;
    }
  }

  lemma WithinStep(n: Node, todo: seq<Node>)
    requires todo != []
    ensures Within(n, todo) <==> n == todo[0] || Within(n, todo[1..] + Children(todo[0]))
  {
    if Within(n, todo[1..] + Children(todo[0])) {
      var p :| IsPath(p) && p[0] in todo[1..] + Children(todo[0]) && p[|p| - 1] == n;
      WithinUp(p, todo);
    }
    if n == todo[0] {
      assert IsPath([n]) && [n][0] in todo;
    } else if Within(n, todo) {
      var p :| IsPath(p) && p[0] in todo && p[|p| - 1] == n;
      if p[0] in todo[1..] {
        assert p[0] in todo[1..] + Children(todo[0]);
      } else {
        PathTail(p);
        assert p[1..][0] in todo[1..] + Children(todo[0]);
      }
    }
  }

  lemma WrapsStep(todo: seq<Node>, name: string)
    requires todo != []
    ensures Wraps(todo, name) <==> Wrapped(todo[0]) == Some(name) || Wraps(todo[1..] + Children(todo[0]), name)
  {
    var rest := todo[1..] + Children(todo[0]);
    WithinStep(todo[0], todo);
    if n :| Within(n, todo) && Wrapped(n) == Some(name) {
      WithinStep(n, todo);
    }
    if n :| Within(n, rest) && Wrapped(n) == Some(name) {
      WithinStep(n, todo);
    }
  }

  lemma NothingWithin(name: string)
    ensures !Wraps([], name)
  {
  }

  /** The breadth-first walk finds exactly the wrapped functions. */
  method MutateNestedNames(m: Node) returns (names: set<string>)
    ensures forall name :: name in names <==> Wraps([m], name)
  {
    names := {};
    var todo := [m];
    while todo != []
      invariant forall name :: Wraps([m], name) <==> name in names || Wraps(todo, name)
      decreases Sizes(todo)
    {
      var n := todo[0];
      SizesCat(todo[1..], Children(n));
      SizeOfChildren(n);
      forall name ensures Wraps(todo, name) <==> Wrapped(n) == Some(name) || Wraps(todo[1..] + Children(n), name) {
        WrapsStep(todo, name);
      }
      todo := todo[1..] + Children(n);
      var wrapped := Wrapped(n);
      if wrapped.Some? {
        names := names + {wrapped.value};
      }
    }
    forall name ensures !Wraps([], name) {
      NothingWithin(name);
    }
  }

  // ---------------------------------------------------------------------------------------------
  // The commits
  // ---------------------------------------------------------------------------------------------

  /** The children that are visited: of a function definition, only the body. */
  function Visited(n: Node): seq<Node> {
    if n.FunctionDef? then n.body else Children(n)
  }

  /** The lines reported for one tree, in order; `inAllowed` inside a wrapped function. */
  function Found(n: Node, allowed: set<string>, inAllowed: bool): seq<int>
    decreases Size(n), 0
  {
    SizeOfChildren(n);
    if n.FunctionDef? then
      SizesCat(n.before, n.body);
      SizesCat(n.before + n.body, n.after);
      FoundAll(n.body, allowed, inAllowed || n.name in allowed)
    else if IsConnCommit(n) && !inAllowed then [n.line]
    else FoundAll(Children(n), allowed, inAllowed)
  }

  function FoundAll(ns: seq<Node>, allowed: set<string>, inAllowed: bool): seq<int>
    decreases Sizes(ns), 1
  {
    if ns == [] then []
    else
      SizesCat([ns[0]], ns[1..]);
      Found(ns[0], allowed, inAllowed) + FoundAll(ns[1..], allowed, inAllowed)
  }

  class Auditor {
    var violations: seq<int>

    constructor ()
      ensures violations == []
    {
      violations := [];
    }

    method Visit(n: Node, allowed: set<string>, inAllowed: bool)
      modifies this
      ensures violations == old(violations) + Found(n, allowed, inAllowed)
      decreases Size(n), 0
    {
      SizeOfChildren(n);
      if n.FunctionDef? {
        SizesCat(n.before, n.body);
        SizesCat(n.before + n.body, n.after);
        VisitAll(n.body, allowed, inAllowed || n.name in allowed);
        return;
      }
      if IsConnCommit(n) && !inAllowed {
        violations := violations + [n.line];
        return;
      }
      VisitAll(Children(n), allowed, inAllowed);
    }

    method VisitAll(ns: seq<Node>, allowed: set<string>, inAllowed: bool)
      modifies this
      ensures violations == old(violations) + FoundAll(ns, allowed, inAllowed)
      decreases Sizes(ns), 1
    {
      for i := 0 to |ns|
        invariant violations + FoundAll(ns[i..], allowed, inAllowed)
               == old(violations) + FoundAll(ns, allowed, inAllowed)
      {
        SizesCat(ns[..i], ns[i..]);
        assert ns[..i] + ns[i..] == ns && ns[i..][1..] == ns[i + 1..];
        Visit(ns[i], allowed, inAllowed);
      }
    }

    method DirectCommits(m: Node)
      requires m.FunctionDef? && violations == []
      modifies this
      ensures violations == [] <==> !HasBareCommit(m)
      ensures forall line :: line in violations <==> BareCommitAt(m, line)
    {
      var allowed := MutateNestedNames(m);
      VisitAll(m.body, allowed, false);
      forall line ensures line in FoundAll(m.body, allowed, false) <==> BareCommitAt(m, line) {
        ReportedIff(m, allowed, line);
      }
      NothingReportedIff(m, allowed);
    }
  }

  // ---------------------------------------------------------------------------------------------
  // What a report means
  // ---------------------------------------------------------------------------------------------

  /** A way down through visited children that enters no wrapped function. */
  ghost predicate IsBare(p: seq<Node>, allowed: set<string>) {
    && p != [] && (forall i :: 0 <= i < |p| - 1 ==> p[i + 1] in Visited(p[i]))
    && (forall i :: 0 <= i < |p| && p[i].FunctionDef? ==> p[i].name !in allowed)
  }

  ghost predicate WrappedNames(m: Node, allowed: set<string>) {
    forall name :: name in allowed <==> Wraps([m], name)
  }

  /** A commit that is visited without entering a function that the method wraps. */
  ghost predicate HasBareCommit(m: Node)
    requires m.FunctionDef?
  {
    exists p, allowed :: WrappedNames(m, allowed) && IsBare(p, allowed) && p[0] in m.body && IsConnCommit(p[|p| - 1])
  }

  /** Such a commit on this line, not inside another one. */
  ghost predicate BareCommitAt(m: Node, line: int)
    requires m.FunctionDef?
  {
    exists p, allowed :: WrappedNames(m, allowed) && p != [] && p[0] in m.body && EndsAt(p, allowed, line)
  }

  ghost predicate EndsAt(p: seq<Node>, allowed: set<string>, line: int) {
    && IsBare(p, allowed) && IsConnCommit(p[|p| - 1]) && p[|p| - 1].line == line
    && forall i :: 0 <= i < |p| - 1 ==> !IsConnCommit(p[i])
  }

  lemma SameNames(m: Node, a: set<string>, b: set<string>)
    requires WrappedNames(m, a) && WrappedNames(m, b)
    ensures a == b
  {
    forall name ensures name in a <==> name in b {
    }
  }

  lemma {:induction false} AllowedIsQuiet(n: Node, allowed: set<string>)
    ensures Found(n, allowed, true) == []
    decreases Size(n), 0
  {
    SizeOfChildren(n);
    if n.FunctionDef? {
      SizesCat(n.before, n.body);
      SizesCat(n.before + n.body, n.after);
      AllowedAreQuiet(n.body, allowed);
    } else {
      AllowedAreQuiet(Children(n), allowed);
    }
  }

  lemma {:induction false} AllowedAreQuiet(ns: seq<Node>, allowed: set<string>)
    ensures FoundAll(ns, allowed, true) == []
    decreases Sizes(ns), 1
  {
    if ns != [] {
      AllowedIsQuiet(ns[0], allowed);
      AllowedAreQuiet(ns[1..], allowed);
    }
  }

  lemma {:induction false} FoundAmong(ns: seq<Node>, allowed: set<string>, n: Node, line: int)
    requires n in ns && line in Found(n, allowed, false)
    ensures line in FoundAll(ns, allowed, false)
  {
    if n != ns[0] {
      assert n in ns[1..];
      FoundAmong(ns[1..], allowed, n, line);
    }
  }

  /** Every outermost bare commit is reported. */
  lemma {:induction false} PathIsFound(p: seq<Node>, allowed: set<string>, line: int)
    requires EndsAt(p, allowed, line)
    ensures line in Found(p[0], allowed, false)
    decreases |p|
  {
    if |p| > 1 {
      var q := p[1..];
      assert forall i :: 0 <= i < |q| ==> q[i] == p[i + 1];
      PathIsFound(q, allowed, line);
      assert p[1] in Visited(p[0]);
      FoundAmong(Visited(p[0]), allowed, p[1], line);
    }
  }

  lemma {:induction false} EndsCons(n: Node, q: seq<Node>, allowed: set<string>, line: int)
    requires EndsAt(q, allowed, line) && q[0] in Visited(n)
    requires !IsConnCommit(n) && (n.FunctionDef? ==> n.name !in allowed)
    ensures EndsAt([n] + q, allowed, line)
  {
    var p := [n] + q;
    assert forall i :: 0 < i < |p| ==> p[i] == q[i - 1];
  }

  lemma {:induction false} VisitedSizes(n: Node)
    ensures Sizes(Visited(n)) < Size(n)
  {
    SizeOfChildren(n);
    if n.FunctionDef? {
      SizesCat(n.before, n.body);
      SizesCat(n.before + n.body, n.after);
    }
  }

  /** What is reported below a node is reported below a visited child, unless the node is the commit. */
  lemma {:induction false} FoundBelow(n: Node, allowed: set<string>, line: int)
    requires line in Found(n, allowed, false) && !IsConnCommit(n)
    ensures line in FoundAll(Visited(n), allowed, false) && (n.FunctionDef? ==> n.name !in allowed)
  {
    if n.FunctionDef? {
      AllowedAreQuiet(n.body, allowed);
    }
  }

  /** Every report is an outermost bare commit. */
  lemma {:induction false} FoundHasPath(n: Node, allowed: set<string>, line: int) returns (p: seq<Node>)
    requires line in Found(n, allowed, false)
    ensures p != [] && p[0] == n && EndsAt(p, allowed, line)
    decreases Size(n), 0
  {
    if IsConnCommit(n) {
      p := [n];
    } else {
      VisitedSizes(n);
      FoundBelow(n, allowed, line);
      var q := FoundAllHasPath(Visited(n), allowed, line);
      EndsCons(n, q, allowed, line);
      p := [n] + q;
    }
  }

  lemma {:induction false} FoundAllHasPath(ns: seq<Node>, allowed: set<string>, line: int) returns (p: seq<Node>)
    requires line in FoundAll(ns, allowed, false)
    ensures p != [] && p[0] in ns && EndsAt(p, allowed, line)
    decreases Sizes(ns), 1
  {
    if line in Found(ns[0], allowed, false) {
      p := FoundHasPath(ns[0], allowed, line);
    } else {
      p := FoundAllHasPath(ns[1..], allowed, line);
    }
  }

  lemma ReportedIff(m: Node, allowed: set<string>, line: int)
    requires m.FunctionDef? && WrappedNames(m, allowed)
    ensures line in FoundAll(m.body, allowed, false) <==> BareCommitAt(m, line)
  {
    if line in FoundAll(m.body, allowed, false) {
      var p := FoundAllHasPath(m.body, allowed, line);
    }
    if BareCommitAt(m, line) {
      var p, names :| WrappedNames(m, names) && p != [] && p[0] in m.body && EndsAt(p, names, line);
      SameNames(m, allowed, names);
      PathIsFound(p, allowed, line);
      FoundAmong(m.body, allowed, p[0], line);
    }
  }

  /** The first commit on a bare way down is an outermost one. */
  lemma {:induction false} OutermostCommit(p: seq<Node>, allowed: set<string>) returns (q: seq<Node>)
    requires IsBare(p, allowed) && IsConnCommit(p[|p| - 1])
    ensures q != [] && q[0] == p[0] && IsConnCommit(q[|q| - 1]) && EndsAt(q, allowed, q[|q| - 1].line)
    decreases |p|
  {
    if k :| 0 <= k < |p| - 1 && IsConnCommit(p[k]) {
      q := OutermostCommit(p[..k + 1], allowed);
    } else {
      q := p;
    }
  }

  /** Nothing is reported exactly if every visited commit lies inside a wrapped function. */
  lemma {:induction false} NothingReportedIff(m: Node, allowed: set<string>)
    requires m.FunctionDef? && WrappedNames(m, allowed)
    ensures FoundAll(m.body, allowed, false) == [] <==> !HasBareCommit(m)
  {
    var found := FoundAll(m.body, allowed, false);
    if found != [] {
      var p := FoundAllHasPath(m.body, allowed, found[0]);
    }
    if HasBareCommit(m) {
      var p, names :| WrappedNames(m, names) && IsBare(p, names) && p[0] in m.body && IsConnCommit(p[|p| - 1]);
      SameNames(m, allowed, names);
      var q := OutermostCommit(p, allowed);
      PathIsFound(q, allowed, q[|q| - 1].line);
      FoundAmong(m.body, allowed, q[0], q[|q| - 1].line);
    }
  }

  // ---------------------------------------------------------------------------------------------
  // One file
  // ---------------------------------------------------------------------------------------------

  const WRITE_AWARE_BASE := "WriteAwareRepo"

  datatype Violation = Violation(line: int, cls: string, inMethod: string)

  function BaseName(base: Node): Option<string> {
    if base.Name? then Some(base.id) else if base.Attribute? then Some(base.attr) else None
  }

  /** A base counts by its name or, if it is an attribute, by its last part. */
  lemma WriteAwareIff(c: Node)
    ensures IsWriteAware(c) <==>
            && c.ClassDef?
            && exists b :: b in c.bases && (b == Name("WriteAwareRepo") || (b.Attribute? && b.attr == "WriteAwareRepo"))
  {
  }

  predicate IsWriteAware(c: Node) {
    c.ClassDef? && exists b :: b in c.bases && BaseName(b) == Some(WRITE_AWARE_BASE)
  }

  /** The names of the checked classes: those with the write-aware base, and the state writer. */
  ghost predicate IsTarget(tree: seq<Node>, isStateWriter: bool, name: string) {
    (isStateWriter && name == "StateWriter") || exists c :: c in tree && IsWriteAware(c) && c.name == name
  }

  ghost predicate CleanClass(c: Node) {
    c.ClassDef? ==> forall f :: f in c.body && f.FunctionDef? ==> !HasBareCommit(f)
  }

  ghost predicate CleanFile(tree: seq<Node>, isStateWriter: bool) {
    forall c :: c in tree && c.ClassDef? && IsTarget(tree, isStateWriter, c.name) ==> CleanClass(c)
  }

  method WriteAwareClasses(tree: seq<Node>) returns (classes: set<string>)
    ensures forall name :: name in classes <==> IsTarget(tree, false, name)
  {
    classes := {};
    for i := 0 to |tree|
      invariant forall name :: name in classes <==> IsTarget(tree[..i], false, name)
    {
      assert tree[..i + 1] == tree[..i] + [tree[i]];
      if IsWriteAware(tree[i]) {
        classes := classes + {tree[i].name};
      }
    }
    assert tree[..|tree|] == tree;
  }

  /** The violation is a bare commit on this line, of a method of the class, both under their names. */
  ghost predicate IsViolation(c: Node, methods: seq<Node>, v: Violation) {
    && c.ClassDef? && v.cls == c.name
    && exists f :: f in methods && f.FunctionDef? && f.name == v.inMethod && BareCommitAt(f, v.line)
  }

  lemma OneMethodMore(c: Node, methods: seq<Node>, item: Node, v: Violation)
    requires c.ClassDef?
    ensures IsViolation(c, methods + [item], v) <==> IsViolation(c, methods, v) || IsViolation(c, [item], v)
  {
    assert item in [item] && item in methods + [item];
  }

  method AuditMethod(c: Node, item: Node) returns (violations: seq<Violation>)
    requires c.ClassDef? && item.FunctionDef?
    ensures violations == [] <==> !HasBareCommit(item)
    ensures forall v :: v in violations <==> IsViolation(c, [item], v)
  {
    var auditor := new Auditor();
    auditor.DirectCommits(item);
    var lines := auditor.violations;
    violations := seq(|lines|, k requires 0 <= k < |lines| => Violation(lines[k], c.name, item.name));
    forall v ensures v in violations <==> v.line in lines && v.cls == c.name && v.inMethod == item.name {
      if v.line in lines && v.cls == c.name && v.inMethod == item.name {
        var k :| 0 <= k < |lines| && lines[k] == v.line;
        assert violations[k] == v;
      }
    }
  }

  method AuditClass(c: Node) returns (violations: seq<Violation>)
    requires c.ClassDef?
    ensures violations == [] <==> CleanClass(c)
    ensures forall v :: v in violations <==> IsViolation(c, c.body, v)
  {
    violations := [];
    for i := 0 to |c.body|
      invariant violations == [] <==> forall f :: f in c.body[..i] && f.FunctionDef? ==> !HasBareCommit(f)
      invariant forall v :: v in violations <==> IsViolation(c, c.body[..i], v)
    {
      var item := c.body[i];
      assert c.body[..i + 1] == c.body[..i] + [item];
      forall v ensures IsViolation(c, c.body[..i + 1], v) <==>
                       IsViolation(c, c.body[..i], v) || IsViolation(c, [item], v)
      {
        OneMethodMore(c, c.body[..i], item, v);
      }
      if !item.FunctionDef? {
        continue;
      }
      var more := AuditMethod(c, item);
      violations := violations + more;
    }
    assert c.body[..|c.body|] == c.body;
  }

  /** A file passes exactly if no method of a checked class has a bare commit. */
  method AuditFile(tree: seq<Node>, isStateWriter: bool) returns (violations: seq<Violation>)
    ensures violations == [] <==> CleanFile(tree, isStateWriter)
    ensures forall v :: v in violations <==>
              exists c :: c in tree && c.ClassDef? && IsTarget(tree, isStateWriter, c.name) && IsViolation(c, c.body, v)
  {
    var targets := WriteAwareClasses(tree);
    if isStateWriter {
      targets := targets + {"StateWriter"};
    }
    violations := [];
    for i := 0 to |tree|
      invariant violations == [] <==> forall c :: c in tree[..i] && c.ClassDef? && c.name in targets ==> CleanClass(c)
      invariant forall v :: v in violations <==>
                  exists c :: c in tree[..i] && c.ClassDef? && c.name in targets && IsViolation(c, c.body, v)
    {
      var node := tree[i];
      assert tree[..i + 1] == tree[..i] + [node];
      if !node.ClassDef? || node.name !in targets {
        continue;
      }
      var more := AuditClass(node);
      violations := violations + more;
    }
    assert tree[..|tree|] == tree;
    assert forall name :: name in targets <==> IsTarget(tree, isStateWriter, name);
  }
}
