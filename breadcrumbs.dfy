/**
 * `generateBreadcrumbs`: the header's breadcrumb trail for the current path.
 * Each crumb is `(href, displayName, isLast)`; the last renders as the current
 * page, every other one as a link followed by a separator.
 */
module Breadcrumbs {
  import opened Seqs
  import opened Text

  datatype Crumb = Crumb(href: string, displayName: string, isLast: bool)

  /** What a crumb renders as. */
  datatype Item = Page(name: string) | LinkThenSeparator(href: string, name: string)

  /** `pathname.split("/").filter(Boolean)`. */
  function Segments(pathname: string): (r: seq<string>)
    ensures forall i :: 0 <= i < |r| ==> r[i] != "" && '/' !in r[i]
  {
    var pieces := Split(pathname, '/');
    var r := Filter(pieces, (p: string) => p != "");
    assert forall i :: 0 <= i < |r| ==> r[i] in r && r[i] in pieces;
    r
  }

  /** `part.charAt(0).toUpperCase() + part.slice(1)` when shorter than 16, else `part`. */
  function DisplayName(part: string): (r: string)
    ensures |r| == |part|
    ensures |part| < 16 && |part| > 0 ==> r[0] == UpperChar(part[0]) && r[1..] == part[1..]
    ensures |part| >= 16 ==> r == part
  {
    if |part| < 16 && |part| > 0 then [UpperChar(part[0])] + part[1..] else part
  }

  /** `"/" + parts.slice(0, index + 1).join("/")`. */
  function Href(parts: seq<string>, index: nat): string
    requires index < |parts|
  {
    "/" + Join(parts[..index + 1], "/")
  }

  function GenerateBreadcrumbs(pathname: string): (r: seq<Crumb>)
    ensures |r| == |Segments(pathname)|
    ensures forall i :: 0 <= i < |r| ==> (r[i].isLast <==> i == |r| - 1)
    ensures forall i :: 0 <= i < |r| ==> r[i].displayName == DisplayName(Segments(pathname)[i])
    ensures forall i :: 0 <= i < |r| ==> r[i].href == Href(Segments(pathname), i)
  {
    var parts := Segments(pathname);
    seq(|parts|, i requires 0 <= i < |parts| => Crumb(Href(parts, i), DisplayName(parts[i]), i == |parts| - 1))
  }

  function Render(c: Crumb): Item {
    if c.isLast then Page(c.displayName) else LinkThenSeparator(c.href, c.displayName)
  }

  /** The root and the empty path have no crumbs. */
  lemma RootHasNoCrumbs()
    ensures GenerateBreadcrumbs("") == []
    ensures GenerateBreadcrumbs("/") == []
  {
    assert Split("", '/') == [""];
    assert Split("/", '/') == ["", ""] by {
      assert "/"[1..] == "";
    }
  }

  /** Each crumb's href is a prefix of the next one's, followed by "/" and the next segment. */
  lemma {:induction false} HrefExtends(parts: seq<string>, i: nat)
    requires i + 1 < |parts|
    ensures Href(parts, i + 1) == Href(parts, i) + "/" + parts[i + 1]
    ensures IsPrefix(Href(parts, i), Href(parts, i + 1))
  {
    JoinSnoc(parts[..i + 1], "/", parts[i + 1]);
    assert parts[..i + 1] + [parts[i + 1]] == parts[..i + 2];
    var h := Href(parts, i);
    assert Href(parts, i + 1) == h + ("/" + parts[i + 1]);
    assert Href(parts, i + 1)[..|h|] == h;
  }

  lemma {:induction false} JoinSnoc(parts: seq<string>, sep: string, x: string)
    requires |parts| >= 1
    ensures Join(parts + [x], sep) == Join(parts, sep) + sep + x
  {
    if |parts| > 1 {
      assert (parts + [x])[1..] == parts[1..] + [x];
      JoinSnoc(parts[1..], sep, x);
    }
  }

  /** The last crumb renders as the page; every other one as a link followed by a separator. */
  lemma RenderedTrail(pathname: string, i: nat)
    requires i < |GenerateBreadcrumbs(pathname)|
    ensures var c := GenerateBreadcrumbs(pathname)[i];
      if i == |GenerateBreadcrumbs(pathname)| - 1 then Render(c) == Page(c.displayName)
      else Render(c) == LinkThenSeparator(c.href, c.displayName)
  {
  }

  /** The segments of "/" + a join of non-empty slash-free parts are those parts. */
  lemma SegmentsOfJoinedPath(parts: seq<string>)
    requires |parts| >= 1
    requires forall i :: 0 <= i < |parts| ==> parts[i] != "" && '/' !in parts[i]
    ensures Segments("/" + Join(parts, "/")) == parts
  {
    var all := [""] + parts;
    assert all[1..] == parts;
    assert Join(all, "/") == "/" + Join(parts, "/");
    SplitJoin(all, '/');
    FilterDropsOnlyEmpty(parts);
  }

  lemma {:induction false} FilterDropsOnlyEmpty(parts: seq<string>)
    requires forall i :: 0 <= i < |parts| ==> parts[i] != ""
    ensures Filter([""] + parts, (p: string) => p != "") == parts
  {
    if |parts| > 0 {
      var n := |parts| - 1;
      FilterDropsOnlyEmpty(parts[..n]);
      assert ([""] + parts)[..|parts|] == [""] + parts[..n];
      assert parts == parts[..n] + [parts[n]];
    } else {
      assert ([""] + parts)[..0] == [];
    }
  }

  /** The last crumb links back to the whole normalised path. */
  lemma LastCrumbIsWholePath(parts: seq<string>)
    requires |parts| >= 1
    requires forall i :: 0 <= i < |parts| ==> parts[i] != "" && '/' !in parts[i]
    ensures var r := GenerateBreadcrumbs("/" + Join(parts, "/"));
      |r| == |parts| && r[|r| - 1].href == "/" + Join(parts, "/") && r[|r| - 1].isLast
  {
    SegmentsOfJoinedPath(parts);
    assert parts[..|parts|] == parts;
  }
}
