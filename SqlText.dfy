/** SQL text as the back end assembles it: fragments joined into one
    statement whose `%s` markers the driver fills from a parameter list. */
module SqlText {

  /** The number of `%s` markers in `s`, read left to right. */
  function Placeholders(s: string): nat
    decreases |s|
  {
    if |s| < 2 then 0
    else if s[0] == '%' && s[1] == 's' then 1 + Placeholders(s[2..])
    else Placeholders(s[1..])
  }

  /** `s` does not end in a `%` that a following `s` could complete. */
  predicate NoOpenPercent(s: string) {
    s == [] || s[|s| - 1] != '%'
  }

  /** Markers are counted piecewise as long as no `%s` is split between two pieces. */
  lemma {:induction false} PlaceholdersAppend(a: string, b: string)
    requires NoOpenPercent(a)
    ensures Placeholders(a + b) == Placeholders(a) + Placeholders(b)
    decreases |a|
  {
    if a == [] {
      assert a + b == b;
    } else if |a| == 1 {
      assert (a + b)[0] == a[0] != '%';
      if |a + b| >= 2 {
        assert (a + b)[1..] == b;
      }
    } else if a[0] == '%' && a[1] == 's' {
      assert (a + b)[2..] == a[2..] + b;
      PlaceholdersAppend(a[2..], b);
    } else {
      assert (a + b)[1..] == a[1..] + b;
      PlaceholdersAppend(a[1..], b);
    }
  }

  /** `s` holds no `%` at all. */
  predicate NoPercent(s: string) {
    forall i :: 0 <= i < |s| ==> s[i] != '%'
  }

  lemma {:induction false} NoPercentNoMarkers(s: string)
    requires NoPercent(s)
    ensures Placeholders(s) == 0 && NoOpenPercent(s)
    decreases |s|
  {
    if |s| >= 2 {
      assert NoPercent(s[1..]) by {
        forall i | 0 <= i < |s[1..]| ensures s[1..][i] != '%' {
          assert s[1..][i] == s[i + 1];
        }
      }
      NoPercentNoMarkers(s[1..]);
    }
  }

  /** Plain text followed by one `%s` holds exactly one marker. */
  lemma TextThenMarker(t: string)
    requires NoPercent(t)
    ensures Placeholders(t + "%s") == 1 && NoOpenPercent(t + "%s")
  {
    NoPercentNoMarkers(t);
    PlaceholdersAppend(t, "%s");
    assert Placeholders("%s") == 1 by {
      assert "%s"[2..] == "";
    }
  }

  /** Python's `sep.join(parts)`. */
  function Join(parts: seq<string>, sep: string): string
    decreases |parts|
  {
    if parts == [] then ""
    else if |parts| == 1 then parts[0]
    else parts[0] + sep + Join(parts[1..], sep)
  }

  /** Each fragment holds exactly one `%s`, and none ends in `%`. */
  predicate SingleMarkerFragments(parts: seq<string>) {
    forall i :: 0 <= i < |parts| ==> Placeholders(parts[i]) == 1 && NoOpenPercent(parts[i])
  }

  /** Joining one-marker fragments with `", "` gives one marker per fragment. */
  lemma {:induction false} PlaceholdersJoin(parts: seq<string>)
    requires SingleMarkerFragments(parts)
    ensures Placeholders(Join(parts, ", ")) == |parts|
    ensures NoOpenPercent(Join(parts, ", "))
    decreases |parts|
  {
    if |parts| >= 2 {
      var rest := parts[1..];
      assert SingleMarkerFragments(rest) by {
        forall i | 0 <= i < |rest| ensures Placeholders(rest[i]) == 1 && NoOpenPercent(rest[i]) {
          assert rest[i] == parts[i + 1];
        }
      }
      PlaceholdersJoin(rest);
      assert Placeholders(", ") == 0;
      PlaceholdersAppend(parts[0], ", ");
      PlaceholdersAppend(parts[0] + ", ", Join(rest, ", "));
      var j := Join(rest, ", ");
      if j != [] {
        assert (parts[0] + ", " + j)[|parts[0] + ", " + j| - 1] == j[|j| - 1];
      }
    }
  }
}
