/** The error tree a schema validation produces: every failing rule leaves a
    message at the path of the value it checked. Objects put their fields'
    issues under the field name, arrays put their elements' issues under the
    element's position, and issues found at the same path accumulate. */
module ErrorTree {

  /** One step of a path: an object field or an array position. */
  datatype Segment = Key(name: string) | Idx(index: nat)

  type Path = seq<Segment>

  /** Issue kinds whose wording the lessons leave to the validation library. */
  datatype IssueCode =
    | Required     // the value is missing altogether
    | InvalidType  // the value is of the wrong kind (a NaN where a number is expected)
    | NotInteger   // a number with a fractional part where an integer is expected

  /** A message is either the text a lesson attaches to a rule or the
      library's own wording for an issue kind, which is not modelled. */
  datatype Message = Custom(text: string) | LibraryDefault(code: IssueCode)

  type ErrorMap = map<Path, set<Message>>

  /** Every path that is present carries at least one message. */
  ghost predicate WellFormed(m: ErrorMap) {
    forall p | p in m :: m[p] != {}
  }

  /** The messages at path `p` (none if the path is absent). */
  function Issues(m: ErrorMap, p: Path): set<Message> {
    if p in m then m[p] else {}
  }

  /** The tree of a leaf value: its rules' messages at the value itself. */
  function Leaf(msgs: set<Message>): (m: ErrorMap)
    ensures WellFormed(m)
    ensures m.Keys <= {[]}
    ensures Issues(m, []) == msgs
  {
    if msgs == {} then map[] else map[[] := msgs]
  }

  /** The tree of an object whose fields are all leaves, from each field's
      path and messages: the fields without messages leave no path behind. */
  function Prune(fields: map<Path, set<Message>>): (m: ErrorMap)
    ensures WellFormed(m)
    ensures m.Keys <= fields.Keys
    ensures forall p :: Issues(m, p) == Issues(fields, p)
    ensures m == map[] <==> forall p | p in fields :: fields[p] == {}
  {
    var m := map p | p in fields && fields[p] != {} :: fields[p];
    assert m == map[] ==> forall p | p in fields :: fields[p] == {} by {
      if m == map[] {
        forall p | p in fields ensures fields[p] == {} {
          assert p !in m;
        }
      }
    }
    m
  }

  /** Accumulates the issues of two validations. */
  function Merge(a: ErrorMap, b: ErrorMap): (m: ErrorMap)
    ensures WellFormed(a) && WellFormed(b) ==> WellFormed(m)
    ensures m.Keys == a.Keys + b.Keys
    ensures m == map[] <==> a == map[] && b == map[]
    ensures forall p :: Issues(m, p) == Issues(a, p) + Issues(b, p)
  {
    var m := map p | p in a.Keys + b.Keys :: Issues(a, p) + Issues(b, p);
    assert a.Keys + b.Keys != {} ==> m != map[] by {
      if a.Keys + b.Keys != {} {
        var p :| p in a.Keys + b.Keys;
        assert p in m;
      }
    }
    m
  }

  /** The children's segments are pairwise different. */
  ghost predicate DistinctSegments(children: seq<(Segment, ErrorMap)>) {
    forall j, k | 0 <= j < k < |children| :: children[j].0 != children[k].0
  }

  /** The position of the first child under segment `s`, or the number of
      children when there is none. */
  function ChildIndex(children: seq<(Segment, ErrorMap)>, s: Segment): (k: nat)
    ensures k <= |children|
    ensures k < |children| ==> children[k].0 == s
    ensures forall j | 0 <= j < k :: children[j].0 != s
  {
    if children == [] then 0
    else if children[0].0 == s then 0
    else 1 + ChildIndex(children[1..], s)
  }

  /** Every path some child's tree puts under that child's segment. */
  function ChildPaths(children: seq<(Segment, ErrorMap)>): set<Path> {
    set k, q | 0 <= k < |children| && q in children[k].1 :: [children[k].0] + q
  }

  /** The tree of a composite value from the trees of its children, each
      placed under its own segment: an object's fields under their names, an
      array's elements under their positions. */
  function Tree(children: seq<(Segment, ErrorMap)>): ErrorMap {
    map p | p in ChildPaths(children) && |p| > 0 ::
      var k := ChildIndex(children, p[0]);
      if k < |children| then Issues(children[k].1, p[1..]) else {}
  }

  /** Every path of the tree starts with one of the children's segments. */
  lemma TreeKeys(children: seq<(Segment, ErrorMap)>)
    ensures forall p | p in Tree(children) :: |p| > 0 && exists k | 0 <= k < |children| :: p[0] == children[k].0
  {
    forall p | p in Tree(children)
      ensures |p| > 0 && exists k | 0 <= k < |children| :: p[0] == children[k].0
    {
      var k, q :| 0 <= k < |children| && q in children[k].1 && p == [children[k].0] + q;
      assert p[0] == children[k].0;
    }
  }

  /** Under a child's segment the tree holds exactly that child's tree. */
  lemma TreeChild(children: seq<(Segment, ErrorMap)>, k: nat, q: Path)
    requires DistinctSegments(children)
    requires k < |children|
    ensures Issues(Tree(children), [children[k].0] + q) == Issues(children[k].1, q)
  {
    var p := [children[k].0] + q;
    assert p[0] == children[k].0 && p[1..] == q;
    assert ChildIndex(children, p[0]) == k;
    if q in children[k].1 {
      assert p in ChildPaths(children);
    }
  }

  /** The tree is well formed when every child's tree is. */
  lemma TreeWellFormed(children: seq<(Segment, ErrorMap)>)
    requires DistinctSegments(children)
    requires forall k | 0 <= k < |children| :: WellFormed(children[k].1)
    ensures WellFormed(Tree(children))
  {
    forall p | p in Tree(children) ensures Tree(children)[p] != {} {
      var k, q :| 0 <= k < |children| && q in children[k].1 && p == [children[k].0] + q;
      TreeChild(children, k, q);
    }
  }

  /** The tree is empty exactly when every child's tree is. */
  lemma TreeEmpty(children: seq<(Segment, ErrorMap)>)
    ensures Tree(children) == map[] <==> forall k | 0 <= k < |children| :: children[k].1 == map[]
  {
    if exists k | 0 <= k < |children| :: children[k].1 != map[] {
      var k :| 0 <= k < |children| && children[k].1 != map[];
      var q :| q in children[k].1;
      var p := [children[k].0] + q;
      assert p in ChildPaths(children) && |p| > 0;
      assert p in Tree(children);
    } else {
      assert ChildPaths(children) == {};
    }
  }

  /** The children of an array: element `i` under `Idx(i)`. */
  function Elements<T>(xs: seq<T>, elem: T -> ErrorMap): (children: seq<(Segment, ErrorMap)>)
    ensures |children| == |xs|
    ensures forall i | 0 <= i < |xs| :: children[i] == (Idx(i), elem(xs[i]))
    ensures DistinctSegments(children)
  {
    seq(|xs|, i requires 0 <= i < |xs| => (Idx(i), elem(xs[i])))
  }

  /** The elements' part of an array's tree: every path starts with an
      in-range position, it is empty exactly when every element passes, and
      it is well formed when the elements' trees are. */
  lemma ElementsTree<T>(xs: seq<T>, elem: T -> ErrorMap)
    ensures forall p: Path | p in Tree(Elements(xs, elem)) :: |p| > 0 && p[0].Idx? && p[0].index < |xs|
    ensures Tree(Elements(xs, elem)) == map[] <==> forall i | 0 <= i < |xs| :: elem(xs[i]) == map[]
    ensures (forall i | 0 <= i < |xs| :: WellFormed(elem(xs[i]))) ==> WellFormed(Tree(Elements(xs, elem)))
  {
    var children := Elements(xs, elem);
    TreeKeys(children);
    TreeEmpty(children);
    if forall i | 0 <= i < |xs| :: WellFormed(elem(xs[i])) {
      TreeWellFormed(children);
    }
  }

  /** An array's own messages at its path, joined with the tree of its
      elements, whose paths all start with a position below `n`. */
  function WithOwnIssues(own: set<Message>, elements: ErrorMap, n: nat): (m: ErrorMap)
    requires forall p: Path | p in elements :: |p| > 0 && p[0].Idx? && p[0].index < n
    ensures WellFormed(elements) ==> WellFormed(m)
    ensures Issues(m, []) == own
    ensures forall p: Path | p in m :: p == [] || (p[0].Idx? && p[0].index < n)
    ensures m == map[] <==> own == {} && elements == map[]
  {
    Merge(Leaf(own), elements)
  }

  /** The tree of an array: the messages of the array's own rules (its
      length bounds) at the array itself, and element `i`'s tree under
      `Idx(i)`. */
  function ArrayTree<T>(own: set<Message>, xs: seq<T>, elem: T -> ErrorMap): (m: ErrorMap)
    ensures (forall i | 0 <= i < |xs| :: WellFormed(elem(xs[i]))) ==> WellFormed(m)
    ensures Issues(m, []) == own
    ensures forall p: Path | p in m :: p == [] || (p[0].Idx? && p[0].index < |xs|)
    ensures m == map[] <==> own == {} && forall i | 0 <= i < |xs| :: elem(xs[i]) == map[]
  {
    ElementsTree(xs, elem);
    WithOwnIssues(own, Tree(Elements(xs, elem)), |xs|)
  }

  /** Under `Idx(i)` an array's tree holds exactly element `i`'s tree. */
  lemma ArrayElement<T>(own: set<Message>, xs: seq<T>, elem: T -> ErrorMap, i: nat, q: Path)
    requires i < |xs|
    ensures Issues(ArrayTree(own, xs, elem), [Idx(i)] + q) == Issues(elem(xs[i]), q)
  {
    var children := Elements(xs, elem);
    TreeChild(children, i, q);
    assert Issues(Leaf(own), [Idx(i)] + q) == {};
  }

  /** Nothing is reported under a position past the array's end. */
  lemma ArrayBeyondEnd<T>(own: set<Message>, xs: seq<T>, elem: T -> ErrorMap, i: nat, q: Path)
    requires i >= |xs|
    ensures Issues(ArrayTree(own, xs, elem), [Idx(i)] + q) == {}
  {
    var children := Elements(xs, elem);
    TreeKeys(children);
    var p := [Idx(i)] + q;
    assert p[0] == Idx(i);
    assert Issues(Leaf(own), p) == {};
  }

  /** Once element `r` is removed, the issues reported under each later
      position are those previously reported one position further on: the
      remaining elements are renumbered, and their errors move with them. */
  lemma RemovalRenumbers<T>(own: set<Message>, own': set<Message>, xs: seq<T>, elem: T -> ErrorMap, r: nat, i: nat, q: Path)
    requires r < |xs|
    ensures Issues(ArrayTree(own', xs[..r] + xs[r + 1..], elem), [Idx(i)] + q) ==
      Issues(ArrayTree(own, xs, elem), [Idx(if i < r then i else i + 1)] + q)
  {
    var ys := xs[..r] + xs[r + 1..];
    var j := if i < r then i else i + 1;
    if i < |ys| {
      assert ys[i] == xs[j];
      ArrayElement(own', ys, elem, i, q);
      ArrayElement(own, xs, elem, j, q);
    } else {
      ArrayBeyondEnd(own', ys, elem, i, q);
      ArrayBeyondEnd(own, xs, elem, j, q);
    }
  }

  /** What a form resolver hands back: the validated data, or the error tree. */
  datatype Outcome<T> = Accepted(data: T) | Rejected(errors: ErrorMap)

  function Resolve<T>(data: T, errs: ErrorMap): (r: Outcome<T>)
    ensures r.Accepted? <==> errs == map[]
    ensures r.Accepted? ==> r.data == data
    ensures r.Rejected? ==> r.errors == errs
  {
    if errs == map[] then Accepted(data) else Rejected(errs)
  }
}
