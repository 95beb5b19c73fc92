/** Request paths as sequences of segments. */
module Paths {

  /** The parts of a path between its slashes. */
  function Segments(path: string): (segments: seq<string>)
    ensures |segments| >= 1
  {
    if path == "" then [""]
    else
      var rest := Segments(path[1..]);
      if path[0] == '/' then [""] + rest else [[path[0]] + rest[0]] + rest[1..]
  }

  lemma ConsBegins<T>(x: T, a: seq<T>, y: T, b: seq<T>)
    ensures [x] + a <= [y] + b <==> x == y && a <= b
  {
    var xs, ys := [x] + a, [y] + b;
    assert xs[1..] == a && ys[1..] == b;
    if xs <= ys {
      assert xs[0] == ys[0];
      assert forall i | 0 <= i < |a| :: a[i] == xs[i + 1] && b[i] == ys[i + 1];
    }
  }

  /** The segments of nonempty paths begin alike exactly if the first characters are the same and the
      rest's segments begin alike. */
  lemma UnfoldSegments(path: string, prefix: string)
    requires path != "" && prefix != ""
    ensures Segments(prefix) <= Segments(path) <==> prefix[0] == path[0] && Segments(prefix[1..]) <= Segments(path[1..])
  {
    var a, b := Segments(prefix[1..]), Segments(path[1..]);
    if prefix[0] == '/' || path[0] == '/' {
      ConsBegins("", a, "", b);
      if prefix[0] != path[0] {
        assert Segments(prefix)[0] != Segments(path)[0];
      }
    } else {
      Longer(prefix[0], a, path[0], b);
    }
  }

  lemma Longer(p: char, a: seq<string>, q: char, b: seq<string>)
    requires a != [] && b != []
    ensures [[p] + a[0]] + a[1..] <= [[q] + b[0]] + b[1..] <==> p == q && a <= b
  {
    var x, y := [p] + a[0], [q] + b[0];
    ConsBegins(x, a[1..], y, b[1..]);
    assert x[0] == p && y[0] == q && x[1..] == a[0] && y[1..] == b[0];
    assert a == [a[0]] + a[1..] && b == [b[0]] + b[1..];
    ConsBegins(a[0], a[1..], b[0], b[1..]);
  }

  /** A path goes on from another at a slash, or is the same, exactly if its segments begin with those
      of the other. */
  lemma {:induction false} SegmentsBegin(path: string, prefix: string)
    ensures Segments(prefix) <= Segments(path) <==> path == prefix || prefix + "/" <= path
    decreases prefix
  {
    if prefix == "" {
      if path != "" {
        assert Segments(path)[0] == "" <==> path[0] == '/';
        assert "" + "/" == "/";
      }
    } else if path == "" {
      assert Segments(prefix)[0] != "" || |Segments(prefix)| > 1;
    } else {
      SegmentsBegin(path[1..], prefix[1..]);
      UnfoldSegments(path, prefix);
      assert prefix == [prefix[0]] + prefix[1..] && path == [path[0]] + path[1..];
      ConsBegins(prefix[0], prefix[1..] + "/", path[0], path[1..]);
      assert prefix + "/" == [prefix[0]] + (prefix[1..] + "/");
    }
  }

  /** Going on at a slash adds segments. */
  lemma {:induction false} SegmentsGrow(path: string, prefix: string)
    requires prefix + "/" <= path
    ensures |Segments(path)| > |Segments(prefix)|
    decreases prefix
  {
    if prefix != "" {
      assert path[0] == prefix[0] && prefix[1..] + "/" <= path[1..] by {
        assert prefix + "/" == [prefix[0]] + (prefix[1..] + "/") && path == [path[0]] + path[1..];
        ConsBegins(prefix[0], prefix[1..] + "/", path[0], path[1..]);
      }
      SegmentsGrow(path[1..], prefix[1..]);
    }
  }
}
