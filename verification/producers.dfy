/** Reference producers: the named values an environment publishes.

    A producer's name is its own path part (or its construct id), prefixed
    by its parent's name and `/` when it is a child; children are created
    recursively from the producer's props. The name, the environment's
    revision path and the build id together form the parameter path under
    which the value is shared. */
module Producers {
  import opened Wrappers
  import opened Errors
  import opened Strings
  import opened RevRefs

  /** `RefProducerProps`; an absent `children` list is the empty one. */
  datatype ProducerProps = ProducerProps(pathPart: Option<string>, children: seq<ProducerProps>)

  /** A constructed producer: construct id, full name, and its children. */
  datatype ProducerTree = ProducerTree(id: string, name: string, children: seq<ProducerTree>)

  /** One path segment of a producer name: `[a-zA-Z0-9_.-]+` without `..`. */
  predicate SegmentOk(seg: string) {
    |seg| > 0 && All(seg, ValueChar) && !HasPair(seg, '.', '.')
  }

  /** An alphanumeric segment is a valid one. */
  lemma AlnumSegmentOk(seg: string)
    requires |seg| > 0 && All(seg, IsAlnum)
    ensures SegmentOk(seg)
  {
    assert forall i | 0 <= i < |seg| - 1 :: !PairAt(seg, i, '.', '.');
  }

  /** The segment a producer contributes: its path part, or else its id. */
  function Segment(id: string, props: ProducerProps): string {
    props.pathPart.GetOr(id)
  }

  /** The construct id of child `i`: the parent's id, `-`, and the child's
      path part or else its position. */
  function ChildId(id: string, c: ProducerProps, i: nat): string {
    id + "-" + (if c.pathPart.Some? then c.pathPart.value else NatToString(i))
  }

  /** The full name under an optional (truthy) parent name. */
  function FullName(parent: Option<string>, seg: string): string {
    if parent.Some? && parent.value != "" then parent.value + "/" + seg else seg
  }

  /** Every segment of the whole props tree is acceptable: the reference
      definition of when the constructor succeeds. */
  predicate SegmentsOk(id: string, props: ProducerProps)
    decreases props
  {
    && SegmentOk(Segment(id, props))
    && forall i | 0 <= i < |props.children| :: SegmentsOk(ChildId(id, props.children[i], i), props.children[i])
  }

  /** `new OdmdCrossRefProducer(owner, id, props)`: checks the segment, then
      builds the children in order; the first bad segment anywhere fails it. */
  function NewProducer(id: string, props: ProducerProps, parent: Option<string>): (r: Result<ProducerTree, Error>)
    ensures r.Ok? <==> SegmentsOk(id, props)
    ensures r.Ok? ==> r.value.id == id && r.value.name == FullName(parent, Segment(id, props))
    ensures r.Ok? ==> |r.value.children| == |props.children|
    ensures r.Ok? ==> forall i | 0 <= i < |props.children| ::
                        r.value.children[i].id == ChildId(id, props.children[i], i)
                        && r.value.children[i].name == r.value.name + "/" + Segment(ChildId(id, props.children[i], i), props.children[i])
    ensures r.Err? ==> r.error == ProducerNameCharset || r.error == ProducerNameDotDot
    decreases props, 1, 0
  {
    var seg := Segment(id, props);
    if !(|seg| > 0 && All(seg, ValueChar)) then Err(ProducerNameCharset)
    else if HasPair(seg, '.', '.') then Err(ProducerNameDotDot)
    else
      var name := FullName(parent, seg);
      var kids :- NewChildren(id, name, props.children, 0);
      Ok(ProducerTree(id, name, kids))
  }

  /** Children `i..` of a producer named `parentName`. */
  function NewChildren(id: string, parentName: string, cs: seq<ProducerProps>, i: nat): (r: Result<seq<ProducerTree>, Error>)
    requires i <= |cs| && parentName != ""
    ensures r.Ok? <==> forall j | i <= j < |cs| :: SegmentsOk(ChildId(id, cs[j], j), cs[j])
    ensures r.Ok? ==> |r.value| == |cs| - i
    ensures r.Ok? ==> forall j | i <= j < |cs| ::
                        r.value[j - i].id == ChildId(id, cs[j], j)
                        && r.value[j - i].name == parentName + "/" + Segment(ChildId(id, cs[j], j), cs[j])
    ensures r.Err? ==> r.error == ProducerNameCharset || r.error == ProducerNameDotDot
    decreases cs, 0, |cs| - i
  {
    if i == |cs| then Ok([])
    else
      var c :- NewProducer(ChildId(id, cs[i], i), cs[i], Some(parentName));
      var rest :- NewChildren(id, parentName, cs, i + 1);
      var out := [c] + rest;
      assert forall k | 0 < k < |out| :: out[k] == rest[k - 1];
      Ok(out)
  }

  /** Every name in a constructed tree is non-empty and free of `..`. */
  predicate NamesClean(t: ProducerTree)
    decreases t
  {
    && t.name != "" && !HasPair(t.name, '.', '.')
    && forall i | 0 <= i < |t.children| :: NamesClean(t.children[i])
  }

  /** Every descendant's name extends its parent's name by `/` and a segment. */
  predicate NamesNested(t: ProducerTree)
    decreases t
  {
    forall i | 0 <= i < |t.children| ::
      StartsWith(t.children[i].name, t.name + "/") && NamesNested(t.children[i])
  }

  lemma NoDotDotAcrossSlash(a: string, b: string)
    requires !HasPair(a, '.', '.') && !HasPair(b, '.', '.')
    ensures !HasPair(a + "/" + b, '.', '.')
  {
    var s := a + "/" + b;
    forall j | 0 <= j < |s| - 1 ensures !PairAt(s, j, '.', '.') {
      if j < |a| - 1 {
        assert !PairAt(a, j, '.', '.');
      } else if j > |a| {
        assert s[j] == b[j - |a| - 1] && s[j + 1] == b[j - |a|];
        assert !PairAt(b, j - |a| - 1, '.', '.');
      }
    }
  }

  /** Producer names never contain `..`, whatever the nesting. */
  lemma {:induction false} ProducerNamesClean(id: string, props: ProducerProps, parent: Option<string>)
    requires NewProducer(id, props, parent).Ok?
    requires parent.Some? ==> !HasPair(parent.value, '.', '.')
    ensures NamesClean(NewProducer(id, props, parent).value)
    ensures NamesNested(NewProducer(id, props, parent).value)
    decreases props
  {
    var t := NewProducer(id, props, parent).value;
    var seg := Segment(id, props);
    if parent.Some? && parent.value != "" {
      NoDotDotAcrossSlash(parent.value, seg);
    }
    forall i | 0 <= i < |t.children|
      ensures NamesClean(t.children[i]) && NamesNested(t.children[i])
      ensures StartsWith(t.children[i].name, t.name + "/")
    {
      var cid := ChildId(id, props.children[i], i);
      assert SegmentsOk(cid, props.children[i]);
      var sub := NewProducer(cid, props.children[i], Some(t.name));
      assert sub.Ok?;
      ChildIsSub(id, props, parent, i);
      ProducerNamesClean(cid, props.children[i], Some(t.name));
    }
  }

  /** The `i`-th child of a constructed producer is the producer its own
      props construct under the parent's name. */
  lemma ChildIsSub(id: string, props: ProducerProps, parent: Option<string>, i: nat)
    requires NewProducer(id, props, parent).Ok? && i < |props.children|
    ensures var t := NewProducer(id, props, parent).value;
            NewProducer(ChildId(id, props.children[i], i), props.children[i], Some(t.name)) == Ok(t.children[i])
  {
    var t := NewProducer(id, props, parent).value;
    ChildrenAreSubs(id, t.name, props.children, 0, i);
  }

  lemma {:induction false} ChildrenAreSubs(id: string, parentName: string, cs: seq<ProducerProps>, from: nat, i: nat)
    requires from <= i < |cs| && parentName != ""
    requires NewChildren(id, parentName, cs, from).Ok?
    ensures NewProducer(ChildId(id, cs[i], i), cs[i], Some(parentName)) == Ok(NewChildren(id, parentName, cs, from).value[i - from])
    decreases |cs| - from
  {
    var r := NewChildren(id, parentName, cs, from).value;
    var c := NewProducer(ChildId(id, cs[from], from), cs[from], Some(parentName));
    var rest := NewChildren(id, parentName, cs, from + 1);
    assert c.Ok? && rest.Ok? && r == [c.value] + rest.value;
    if from < i {
      ChildrenAreSubs(id, parentName, cs, from + 1, i);
      assert r[i - from] == rest.value[i - (from + 1)];
    }
  }

  /** `CtnImgRefProducer`: the repository producer, with one child named by
      `latestShaPathPart` (default `latestSha`). */
  function CtnImgProps(repoPathPart: Option<string>, latestShaPathPart: Option<string>): ProducerProps {
    ProducerProps(repoPathPart, [ProducerProps(Some(latestShaPathPart.GetOr("latestSha")), [])])
  }

  /** `latestSha`: the only child, named `<repo producer name>/<latest sha part>`. */
  function LatestSha(t: ProducerTree): (r: Option<ProducerTree>)
    ensures |t.children| > 0 <==> r.Some?
  {
    if |t.children| > 0 then Some(t.children[0]) else None
  }

  lemma CtnImgLayout(id: string, repoPathPart: Option<string>, latestShaPathPart: Option<string>, parent: Option<string>)
    requires NewProducer(id, CtnImgProps(repoPathPart, latestShaPathPart), parent).Ok?
    ensures var t := NewProducer(id, CtnImgProps(repoPathPart, latestShaPathPart), parent).value;
            && LatestSha(t).Some?
            && LatestSha(t).value.name == t.name + "/" + latestShaPathPart.GetOr("latestSha")
            && LatestSha(t).value.id == id + "-" + latestShaPathPart.GetOr("latestSha")
  {
  }

  // ---------------------------------------------------------------- parameter paths

  /** `toEnverPath`: the revision path, `/`, the producer name. */
  function EnverPath(rev: RevRef, name: string): string {
    PathOf(rev) + "/" + name
  }

  const SharePrefix: string := "/odmd-share/"

  /** `toSharePath`: `/odmd-share/<buildId>/<enver path>`. */
  function SharePath(buildId: string, rev: RevRef, name: string): (r: string)
    ensures StartsWith(r, SharePrefix)
  {
    SharePrefix + (buildId + "/" + EnverPath(rev, name))
  }

  /** Revision paths never contain `/`. */
  lemma PathHasNoSlash(r: RevRef)
    requires ValidRef(r)
    ensures !('/' in PathOf(r))
    decreases r
  {
    match r.origin
    case None =>
    case Some(o) =>
      PathHasNoSlash(o);
  }

  /** Distinct (build, revision, name) triples get distinct share paths,
      for build ids without `/`: no two producers share a parameter. */
  lemma SharePathInjective(b1: string, r1: RevRef, n1: string, b2: string, r2: RevRef, n2: string)
    requires ValidRef(r1) && ValidRef(r2)
    requires !('/' in b1) && !('/' in b2)
    ensures SharePath(b1, r1, n1) == SharePath(b2, r2, n2) <==> b1 == b2 && r1 == r2 && n1 == n2
  {
    if SharePath(b1, r1, n1) == SharePath(b2, r2, n2) {
      var t1 := b1 + "/" + EnverPath(r1, n1);
      var t2 := b2 + "/" + EnverPath(r2, n2);
      assert t1 == SharePath(b1, r1, n1)[|SharePrefix|..];
      assert t2 == SharePath(b2, r2, n2)[|SharePrefix|..];
      SplitUnique(b1, EnverPath(r1, n1), b2, EnverPath(r2, n2), '/');
      PathHasNoSlash(r1);
      PathHasNoSlash(r2);
      SplitUnique(PathOf(r1), n1, PathOf(r2), n2, '/');
      PathInjective(r1, r2);
    }
  }
}
