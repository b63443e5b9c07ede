/** The breadcrumb trail: the path's segments, the route each crumb links
    to, and its label. */
module Breadcrumb {
  import opened Common
  import opened Collections

  /** `s.split('/')`: the pieces between the slashes, empty ones included. */
  function Split(s: string): (r: seq<string>)
    ensures |r| >= 1
    ensures forall i :: 0 <= i < |r| ==> '/' !in r[i]
  {
    if s == [] then [""]
    else if s[0] == '/' then [""] + Split(s[1..])
    else
      var rest := Split(s[1..]);
      [[s[0]] + rest[0]] + rest[1..]
  }

  /** `parts.join('/')`. */
  function Join(parts: seq<string>): string
  {
    if parts == [] then ""
    else if |parts| == 1 then parts[0]
    else parts[0] + "/" + Join(parts[1..])
  }

  /** Splitting loses nothing: joining the pieces gives the path back. */
  lemma {:induction false} JoinSplit(s: string)
    ensures Join(Split(s)) == s
  {
    if s != [] {
      JoinSplit(s[1..]);
      var rest := Split(s[1..]);
      if s[0] == '/' {
        assert Split(s)[1..] == rest;
      } else {
        var r := Split(s);
        if |rest| == 1 {
          assert r == [[s[0]] + rest[0]];
        } else {
          assert r[1..] == rest[1..];
          assert Join(rest) == rest[0] + "/" + Join(rest[1..]);
        }
      }
    }
  }

  /** Pieces without slashes come back out of their join unchanged. */
  lemma {:induction false} SplitJoin(parts: seq<string>)
    requires |parts| >= 1
    requires forall i :: 0 <= i < |parts| ==> '/' !in parts[i]
    ensures Split(Join(parts)) == parts
  {
    if |parts| == 1 {
      SplitNoSlash(parts[0]);
    } else {
      SplitJoin(parts[1..]);
      SplitPrefix(parts[0], Join(parts[1..]));
      assert parts == [parts[0]] + parts[1..];
    }
  }

  lemma {:induction false} SplitNoSlash(p: string)
    requires '/' !in p
    ensures Split(p) == [p]
  {
    if p != [] {
      assert '/' !in p[1..] by {
        forall c | c in p[1..] ensures c != '/' { assert c in p; }
      }
      SplitNoSlash(p[1..]);
      assert p[0] in p;
      assert [p[0]] + p[1..] == p;
    }
  }

  /** A piece without slashes, a slash, then the rest. */
  lemma {:induction false} SplitPrefix(p: string, rest: string)
    requires '/' !in p
    ensures Split(p + "/" + rest) == [p] + Split(rest)
  {
    if p == [] {
      assert p + "/" + rest == "/" + rest;
      assert ("/" + rest)[1..] == rest;
    } else {
      assert '/' !in p[1..] by {
        forall c | c in p[1..] ensures c != '/' { assert c in p; }
      }
      assert (p + "/" + rest)[1..] == p[1..] + "/" + rest;
      SplitPrefix(p[1..], rest);
      assert [p[0]] + p[1..] == p;
    }
  }

  predicate NonEmpty(x: string) { x != "" }

  /** `pathname.split('/').filter((x) => x)`. */
  function Segments(path: string): (r: seq<string>)
    ensures forall i :: 0 <= i < |r| ==> r[i] != "" && '/' !in r[i]
  {
    var r := Filter(Split(path), NonEmpty);
    assert forall i :: 0 <= i < |r| ==> r[i] in Split(path);
    r
  }

  lemma SplitAfterSlash(rest: string)
    ensures Split("/" + rest) == [""] + Split(rest)
  {
    assert ("/" + rest)[1..] == rest;
  }

  lemma DropEmptyHead(parts: seq<string>)
    ensures Filter([""] + parts, NonEmpty) == Filter(parts, NonEmpty)
  {
    assert ([""] + parts)[1..] == parts;
  }

  lemma SegmentsOfRoot()
    ensures Segments("/") == []
  {
    SplitAfterSlash("");
    assert "/" + "" == "/";
    DropEmptyHead([""]);
    DropEmptyHead([]);
  }

  /** A path written as a slash before each of its segments has exactly
      those segments. */
  lemma SegmentsOfPath(segments: seq<string>)
    requires forall i :: 0 <= i < |segments| ==> segments[i] != "" && '/' !in segments[i]
    ensures Segments("/" + Join(segments)) == segments
  {
    if segments == [] {
      SegmentsOfRoot();
      assert "/" + Join(segments) == "/";
    } else {
      var joined := Join(segments);
      SplitAfterSlash(joined);
      SplitJoin(segments);
      DropEmptyHead(segments);
      FilterKeepsAll(segments, NonEmpty);
      assert Segments("/" + joined) == Filter([""] + segments, NonEmpty);
    }
  }

  /** The last crumb's route is the slash followed by every segment. */
  lemma LastRouteIsWholePath(segments: seq<string>)
    requires segments != []
    ensures Route(segments, |segments| - 1) == "/" + Join(segments)
  {
    assert segments[..|segments|] == segments;
  }

  /** routeTo of crumb `i`: a slash, then the first `i + 1` segments joined. */
  function Route(segments: seq<string>, i: nat): string
    requires i < |segments|
  {
    "/" + Join(segments[..i + 1])
  }

  lemma {:induction false} JoinSnoc(parts: seq<string>, x: string)
    requires parts != []
    ensures Join(parts + [x]) == Join(parts) + "/" + x
  {
    if |parts| == 1 {
      assert (parts + [x])[1..] == [x];
    } else {
      assert (parts + [x])[1..] == parts[1..] + [x];
      JoinSnoc(parts[1..], x);
    }
  }

  /** Each crumb's route is the previous one with the next segment appended,
      so every route leads into the next. */
  lemma RouteExtends(segments: seq<string>, i: nat)
    requires i + 1 < |segments|
    ensures Route(segments, i + 1) == Route(segments, i) + "/" + segments[i + 1]
    ensures |Route(segments, i)| < |Route(segments, i + 1)|
    ensures Route(segments, i + 1)[..|Route(segments, i)|] == Route(segments, i)
  {
    assert segments[..i + 2] == segments[..i + 1] + [segments[i + 1]];
    JoinSnoc(segments[..i + 1], segments[i + 1]);
  }

  /** breadcrumbMap. */
  const Labels: map<string, string> := map[
    "" := "Trang chủ",
    "order-tracking" := "Đơn hàng",
    "payment" := "Thanh toán",
    "payment-success" := "Thanh toán thành công",
    "register" := "Đăng ký thành viên",
    "point-history" := "Lịch sử dùng điểm",
    "customer-info" := "Thông tin khách hàng"
  ]

  /** `breadcrumbMap[name] || name`. */
  function Label(name: string): (r: string)
    ensures name in Labels ==> r == Labels[name]
    ensures name !in Labels ==> r == name
  {
    if name in Labels && Labels[name] != "" then Labels[name] else name
  }

  const HiddenPaths: seq<string> := ["/login", "/admin-login", "/admin"]

  /** A crumb: its label, and where it links to (None for the current page). */
  datatype Crumb = Crumb(text: string, link: Option<string>)

  const Home := Crumb("Trang chủ", Some("/"))

  function SegmentCrumbs(segments: seq<string>, from: nat): seq<Crumb>
    requires from <= |segments|
    decreases |segments| - from
  {
    if from == |segments| then []
    else
      [Crumb(Label(segments[from]), if from == |segments| - 1 then None else Some(Route(segments, from)))]
      + SegmentCrumbs(segments, from + 1)
  }

  lemma {:induction false} SegmentCrumbsAt(segments: seq<string>, from: nat, i: nat)
    requires from <= i < |segments|
    ensures |SegmentCrumbs(segments, from)| == |segments| - from
    ensures SegmentCrumbs(segments, from)[i - from] ==
              Crumb(Label(segments[i]), if i == |segments| - 1 then None else Some(Route(segments, i)))
    decreases |segments| - from
  {
    if i > from {
      SegmentCrumbsAt(segments, from + 1, i);
    } else if from + 1 < |segments| {
      SegmentCrumbsAt(segments, from + 1, from + 1);
    }
  }

  /** The trail for a pathname: nothing on the hidden pages; otherwise the
      home crumb, then one crumb per segment, each linked to its route except
      the last. */
  function Trail(path: string): (r: Option<seq<Crumb>>)
    ensures r.None? <==> path in HiddenPaths
    ensures r.Some? ==> |r.value| == |Segments(path)| + 1 && r.value[0] == Home
    ensures r.Some? ==> forall i :: 0 <= i < |Segments(path)| ==>
              r.value[i + 1] == Crumb(Label(Segments(path)[i]),
                                      if i == |Segments(path)| - 1 then None else Some(Route(Segments(path), i)))
  {
    if path in HiddenPaths then None
    else
      var segments := Segments(path);
      var crumbs := SegmentCrumbs(segments, 0);
      assert |crumbs| == |segments| by {
        if segments != [] { SegmentCrumbsAt(segments, 0, 0); }
      }
      assert forall i :: 0 <= i < |segments| ==>
               crumbs[i] == Crumb(Label(segments[i]), if i == |segments| - 1 then None else Some(Route(segments, i))) by {
        forall i | 0 <= i < |segments|
          ensures crumbs[i] == Crumb(Label(segments[i]), if i == |segments| - 1 then None else Some(Route(segments, i)))
        {
          SegmentCrumbsAt(segments, 0, i);
        }
      }
      Some([Home] + crumbs)
  }

  /** Only the last crumb of a trail with segments is left without a link. */
  lemma OnlyLastUnlinked(path: string)
    requires path !in HiddenPaths
    ensures var r := Trail(path).value;
      forall i :: 0 <= i < |r| ==> (r[i].link.None? <==> i == |r| - 1 && i > 0)
  {
    var r := Trail(path).value;
    var segments := Segments(path);
    forall i | 0 < i < |r|
      ensures r[i].link.None? <==> i == |r| - 1
    {
      assert segments[i - 1] == segments[i - 1];
    }
  }
}
