/** String assembly as the components do it: `Array.prototype.join`, the
    JavaScript falsy test on strings, and a splitter used to state that a
    joined list can be read back line by line. */
module Text {
  import opened Wrappers

  /** A string is truthy in JavaScript exactly when it is non-empty. */
  predicate Truthy(s: string) {
    s != ""
  }

  /** `value || ''` for an optional string field. */
  function OrEmpty(o: Option<string>): (r: string)
    ensures o.Some? ==> r == o.value
    ensures o.None? ==> r == ""
  {
    o.GetOr("")
  }

  /** `value || fallback` for a string: the fallback replaces the empty string. */
  function OrElse(s: string, fallback: string): (r: string)
    ensures s != "" ==> r == s
    ensures s == "" ==> r == fallback
  {
    if Truthy(s) then s else fallback
  }

  /** Total number of characters in `parts`. */
  function TotalLength(parts: seq<string>): nat
  {
    if |parts| == 0 then 0 else |parts[0]| + TotalLength(parts[1..])
  }

  /** `parts.join(sep)`: the parts in order with one separator between each
      neighbouring pair; it starts with the first part. */
  function Join(parts: seq<string>, sep: string): (r: string)
    ensures |parts| == 0 ==> r == ""
    ensures |parts| > 0 ==> parts[0] <= r
  {
    if |parts| == 0 then ""
    else if |parts| == 1 then parts[0]
    else parts[0] + sep + Join(parts[1..], sep)
  }

  /** `parts.filter(Boolean)` over strings: drops the empty ones. */
  function NonEmptyOnly(parts: seq<string>): (r: seq<string>)
    ensures forall i :: 0 <= i < |r| ==> r[i] != ""
    ensures (forall i :: 0 <= i < |parts| ==> parts[i] != "") ==> r == parts
  {
    if |parts| == 0 then []
    else if parts[0] == "" then NonEmptyOnly(parts[1..])
    else [parts[0]] + NonEmptyOnly(parts[1..])
  }

  /** `sub` occurs in `s` at position `i`. */
  predicate OccursAt(s: string, sub: string, i: nat) {
    i + |sub| <= |s| && s[i..i + |sub|] == sub
  }

  /** `s.includes(sub)`. */
  ghost predicate Contains(s: string, sub: string) {
    exists i: nat :: OccursAt(s, sub, i)
  }

  /** No proper prefix of `sep` is also a suffix of it, so two occurrences of
      `sep` can never overlap. */
  ghost predicate BorderFree(sep: string) {
    forall k :: 0 < k < |sep| ==> sep[k..] != sep[..|sep| - k]
  }

  /** Position of the first occurrence of `sep` in `s`. */
  function FirstOccurrence(s: string, sep: string): (r: Option<nat>)
    requires sep != ""
    ensures r.Some? ==> OccursAt(s, sep, r.value)
    ensures r.Some? ==> forall j: nat :: j < r.value ==> !OccursAt(s, sep, j)
    ensures r.None? <==> !Contains(s, sep)
    decreases |s|
  {
    if |s| < |sep| then None
    else if s[..|sep|] == sep then Some(0)
    else
      var rest := FirstOccurrence(s[1..], sep);
      assert forall j: nat :: OccursAt(s[1..], sep, j) <==> OccursAt(s, sep, j + 1) by {
        forall j: nat ensures OccursAt(s[1..], sep, j) <==> OccursAt(s, sep, j + 1) {
          if j + 1 + |sep| <= |s| {
            assert s[1..][j..j + |sep|] == s[j + 1..j + 1 + |sep|];
          }
        }
      }
      assert !OccursAt(s, sep, 0);
      if rest.None? then
        assert forall j: nat :: OccursAt(s, sep, j) ==> j == 0 || OccursAt(s[1..], sep, j - 1);
        None
      else
        assert forall j: nat :: j < rest.value + 1 ==> !OccursAt(s, sep, j) by {
          forall j: nat | j < rest.value + 1 ensures !OccursAt(s, sep, j) {
            if j > 0 {
              assert !OccursAt(s[1..], sep, j - 1);
            }
          }
        }
        Some(rest.value + 1)
  }

  /** `s.split(sep)`. */
  function Split(s: string, sep: string): (r: seq<string>)
    requires sep != ""
    ensures |r| > 0
    decreases |s|
  {
    match FirstOccurrence(s, sep)
    case None => [s]
    case Some(i) => [s[..i]] + Split(s[i + |sep|..], sep)
  }

  /** Every element of `parts` is free of `sep`. */
  ghost predicate FreeOf(parts: seq<string>, sep: string) {
    forall i :: 0 <= i < |parts| ==> !Contains(parts[i], sep)
  }

  /** In `a + sep + b` with `a` free of a border-free `sep`, the first
      occurrence of `sep` is the one right after `a`. */
  lemma FirstOccurrenceAfterPrefix(a: string, sep: string, b: string)
    requires sep != "" && BorderFree(sep) && !Contains(a, sep)
    ensures FirstOccurrence(a + sep + b, sep) == Some(|a|)
  {
    var s := a + sep + b;
    var L := |sep|;
    assert s[|a|..|a| + L] == sep;
    assert OccursAt(s, sep, |a|);
    forall j: nat | j < |a| ensures !OccursAt(s, sep, j) {
      if j + L <= |a| {
        assert s[j..j + L] == a[j..j + L];
        assert !OccursAt(a, sep, j);
      } else {
        // an occurrence straddling the end of `a` would make `sep` overlap itself
        var d := |a| - j;
        assert sep[d..] != sep[..L - d];
        var m :| 0 <= m < L - d && sep[d..][m] != sep[..L - d][m];
        assert s[j..j + L][d + m] == s[|a| + m] == sep[m];
        assert s[j..j + L][d + m] != sep[d + m];
      }
    }
    var r := FirstOccurrence(s, sep);
    assert r.Some?;
    if r.value < |a| {
      assert false;
    } else if r.value > |a| {
      assert false;
    }
  }

  /** Splitting a join gives back the parts, provided no part contains the
      (border-free) separator: a joined list of lines is exactly those lines. */
  lemma {:induction false} SplitJoin(parts: seq<string>, sep: string)
    requires sep != "" && BorderFree(sep)
    requires |parts| > 0 && FreeOf(parts, sep)
    ensures Split(Join(parts, sep), sep) == parts
    decreases |parts|
  {
    if |parts| == 1 {
      assert Join(parts, sep) == parts[0];
      assert FirstOccurrence(parts[0], sep).None?;
    } else {
      var rest := Join(parts[1..], sep);
      var s := parts[0] + sep + rest;
      assert Join(parts, sep) == s;
      FirstOccurrenceAfterPrefix(parts[0], sep, rest);
      assert s[..|parts[0]|] == parts[0];
      assert s[|parts[0]| + |sep|..] == rest;
      assert FreeOf(parts[1..], sep) by {
        forall i | 0 <= i < |parts[1..]| ensures !Contains(parts[1..][i], sep) {
          assert parts[1..][i] == parts[i + 1];
        }
      }
      SplitJoin(parts[1..], sep);
      assert Split(s, sep) == [parts[0]] + parts[1..];
    }
  }

  /** The first occurrence is at `i` when `sep` occurs there and nowhere before. */
  lemma FirstOccurrenceIs(s: string, sep: string, i: nat)
    requires sep != "" && OccursAt(s, sep, i)
    requires forall j: nat :: j < i ==> !OccursAt(s, sep, j)
    ensures FirstOccurrence(s, sep) == Some(i)
  {
    var r := FirstOccurrence(s, sep);
    assert r.Some?;
    if r.value < i {
      assert false;
    } else if r.value > i {
      assert false;
    }
  }

  /** Two occurrences of a border-free separator never overlap. */
  lemma NoOverlap(x: string, sep: string, i: nat, j: nat)
    requires BorderFree(sep) && i < j < i + |sep| && OccursAt(x, sep, i)
    ensures !OccursAt(x, sep, j)
  {
    var d := j - i;
    var L := |sep|;
    assert sep[d..] != sep[..L - d];
    var m :| 0 <= m < L - d && sep[d..][m] != sep[..L - d][m];
    assert x[i..i + L][d + m] == x[j + m];
    if j + L <= |x| {
      assert x[j..j + L][m] != sep[m];
    }
  }

  /** An occurrence of `sep + sep` is two adjacent occurrences of `sep`. */
  lemma DoubleHalves(x: string, sep: string, j: nat)
    requires OccursAt(x, sep + sep, j)
    ensures OccursAt(x, sep, j) && OccursAt(x, sep, j + |sep|)
  {
    var L := |sep|;
    assert x[j..j + L] == x[j..j + L + L][..L];
    assert x[j + L..j + L + L] == x[j..j + L + L][L..];
  }

  /** An occurrence past a prefix is an occurrence in the rest. */
  lemma OccursShift(a: string, y: string, sub: string, k: nat)
    ensures OccursAt(a + y, sub, |a| + k) <==> OccursAt(y, sub, k)
  {
    if k + |sub| <= |y| {
      assert (a + y)[|a| + k..|a| + k + |sub|] == y[k..k + |sub|];
    }
  }

  /** Where `sep + sep` can start in `p + sep + Y` when `p` is free of a
      border-free `sep`: either right at the `sep` after `p`, and then `Y`
      starts with `sep`, or inside `Y`. */
  lemma DoubleAfterPrefix(p: string, sep: string, Y: string, j: nat)
    requires sep != "" && BorderFree(sep) && !Contains(p, sep)
    requires OccursAt(p + sep + Y, sep + sep, j)
    ensures j == |p| ==> OccursAt(Y, sep, 0)
    ensures j != |p| ==> j >= |p| + |sep| && OccursAt(Y, sep + sep, j - |p| - |sep|)
  {
    var x := p + sep + Y;
    var L := |sep|;
    FirstOccurrenceAfterPrefix(p, sep, Y);
    DoubleHalves(x, sep, j);
    assert j >= |p|;
    assert x == (p + sep) + Y;
    if j == |p| {
      OccursShift(p + sep, Y, sep, 0);
    } else if j < |p| + L {
      NoOverlap(x, sep, |p|, j);
      assert false;
    } else {
      OccursShift(p + sep, Y, sep + sep, j - |p| - L);
    }
  }

  /** In a join of non-empty parts free of a border-free `sep`, the doubled
      separator `sep + sep` cannot start anywhere inside the join, whatever
      follows it after one more `sep`. */
  lemma {:induction false} NoDoubleInJoin(parts: seq<string>, sep: string, w: string)
    requires sep != "" && BorderFree(sep)
    requires |parts| > 0 && FreeOf(parts, sep)
    requires forall i :: 0 <= i < |parts| ==> parts[i] != ""
    ensures forall j: nat :: j < |Join(parts, sep)| ==> !OccursAt(Join(parts, sep) + sep + w, sep + sep, j)
    decreases |parts|
  {
    var p := parts[0];
    var Y := if |parts| == 1 then w else Join(parts[1..], sep) + sep + w;
    var x := Join(parts, sep) + sep + w;
    assert x == p + sep + Y;
    assert !Contains(p, sep);
    if |parts| > 1 {
      assert FreeOf(parts[1..], sep) by {
        forall i | 0 <= i < |parts[1..]| ensures !Contains(parts[1..][i], sep) {
          assert parts[1..][i] == parts[i + 1];
        }
      }
      assert forall i :: 0 <= i < |parts[1..]| ==> parts[1..][i] != "" by {
        forall i | 0 <= i < |parts[1..]| ensures parts[1..][i] != "" {
          assert parts[1..][i] == parts[i + 1];
        }
      }
      NoDoubleInJoin(parts[1..], sep, w);
      var q := parts[1];
      var Z := if |parts| == 2 then w else Join(parts[2..], sep) + sep + w;
      assert parts[1..][1..] == parts[2..];
      assert Y == q + sep + Z;
      FirstOccurrenceAfterPrefix(q, sep, Z);
      assert |Join(parts, sep)| == |p| + |sep| + |Join(parts[1..], sep)|;
    }
    forall j: nat | j < |Join(parts, sep)| ensures !OccursAt(x, sep + sep, j) {
      if OccursAt(x, sep + sep, j) {
        DoubleAfterPrefix(p, sep, Y, j);
        assert false;
      }
    }
  }

  /** A join of non-empty parts free of a border-free `sep` does not contain
      `sep + sep`. */
  lemma JoinNoDouble(parts: seq<string>, sep: string)
    requires sep != "" && BorderFree(sep)
    requires |parts| > 0 && FreeOf(parts, sep)
    requires forall i :: 0 <= i < |parts| ==> parts[i] != ""
    ensures !Contains(Join(parts, sep), sep + sep)
  {
    var b := Join(parts, sep);
    NoDoubleInJoin(parts, sep, "");
    forall j: nat ensures !OccursAt(b, sep + sep, j) {
      if j + |sep + sep| <= |b| {
        var c := b + sep + "";
        assert !OccursAt(c, sep + sep, j);
        assert c[j..j + |sep + sep|] == b[j..j + |sep + sep|];
      }
    }
  }

  /** Blocks that are each the `sep`-join of non-empty, `sep`-free lines are
      read back by splitting their `sep + sep`-join, although `sep + sep`
      overlaps itself. */
  lemma {:induction false} SplitJoinDoubled(blocks: seq<string>, groups: seq<seq<string>>, sep: string)
    requires sep != "" && BorderFree(sep)
    requires |blocks| == |groups| > 0
    requires forall i :: 0 <= i < |groups| ==> |groups[i]| > 0 && FreeOf(groups[i], sep)
    requires forall i, j :: 0 <= i < |groups| && 0 <= j < |groups[i]| ==> groups[i][j] != ""
    requires forall i :: 0 <= i < |blocks| ==> blocks[i] == Join(groups[i], sep)
    ensures Split(Join(blocks, sep + sep), sep + sep) == blocks
    decreases |blocks|
  {
    var ss := sep + sep;
    var b := blocks[0];
    assert forall i :: 0 <= i < |groups[0]| ==> groups[0][i] != "";
    if |blocks| == 1 {
      JoinNoDouble(groups[0], sep);
      assert Join(blocks, ss) == b;
      assert FirstOccurrence(b, ss).None?;
    } else {
      var rest := Join(blocks[1..], ss);
      var s := b + ss + rest;
      assert Join(blocks, ss) == s;
      NoDoubleInJoin(groups[0], sep, sep + rest);
      assert b + sep + (sep + rest) == s;
      assert s[|b|..|b| + |ss|] == ss;
      FirstOccurrenceIs(s, ss, |b|);
      assert s[..|b|] == b;
      assert s[|b| + |ss|..] == rest;
      SplitJoinDoubled(blocks[1..], groups[1..], sep);
      assert Split(s, ss) == [b] + blocks[1..];
    }
  }

  /** A join is as long as its parts together plus one separator fewer than
      there are parts. */
  lemma {:induction false} JoinLength(parts: seq<string>, sep: string)
    requires |parts| > 0
    ensures |Join(parts, sep)| == TotalLength(parts) + (|parts| - 1) * |sep|
    decreases |parts|
  {
    if |parts| > 1 {
      JoinLength(parts[1..], sep);
      assert (|parts| - 1) * |sep| == |sep| + (|parts| - 2) * |sep|;
    }
  }

  /** Joining two non-empty lists is joining each and putting one separator
      between the results. */
  lemma {:induction false} JoinAppend(a: seq<string>, b: seq<string>, sep: string)
    requires |a| > 0 && |b| > 0
    ensures Join(a + b, sep) == Join(a, sep) + sep + Join(b, sep)
    decreases |a|
  {
    if |a| == 1 {
      assert (a + b)[1..] == b;
    } else {
      assert (a + b)[1..] == a[1..] + b;
      JoinAppend(a[1..], b, sep);
    }
  }

  /** A join of non-empty parts is empty exactly when there are no parts. */
  lemma {:induction false} JoinEmptyIff(parts: seq<string>, sep: string)
    requires forall i :: 0 <= i < |parts| ==> parts[i] != ""
    ensures Join(parts, sep) == "" <==> |parts| == 0
  {
    if |parts| > 0 {
      assert |Join(parts, sep)| >= |parts[0]| > 0;
    }
  }

  /** A string none of whose characters starts `sub` cannot contain it. */
  lemma NoStartCharNoContains(s: string, sub: string)
    requires sub != "" && sub[0] !in s
    ensures !Contains(s, sub)
  {
    forall i: nat | OccursAt(s, sub, i) ensures false {
    }
  }

  /** Prefixing a string with characters that cannot start `sub` adds no
      occurrence of `sub`. */
  lemma PrefixNoContains(a: string, b: string, sub: string)
    requires sub != "" && sub[0] !in a && !Contains(b, sub)
    ensures !Contains(a + b, sub)
  {
    var s := a + b;
    forall i: nat | OccursAt(s, sub, i) ensures false {
      if i < |a| {
      } else {
        assert s[i..i + |sub|] == b[i - |a|..i - |a| + |sub|];
        assert OccursAt(b, sub, i - |a|);
      }
    }
  }

  /** An occurrence inside a part is an occurrence in the whole. */
  lemma ContainsInfix(a: string, b: string, c: string, sub: string)
    requires Contains(b, sub)
    ensures Contains(a + b + c, sub)
  {
    var i: nat :| OccursAt(b, sub, i);
    var s := a + b + c;
    assert s[|a| + i..|a| + i + |sub|] == b[i..i + |sub|];
    assert OccursAt(s, sub, |a| + i);
  }

  /** `"".split(sep)` is one empty string. */
  lemma SplitEmpty(sep: string)
    requires sep != ""
    ensures Split("", sep) == [""]
  {
    assert FirstOccurrence("", sep).None?;
  }

  /** The separators the components join with cannot overlap themselves. */
  lemma SeparatorsBorderFree()
    ensures BorderFree("<br>")
    ensures BorderFree(", ")
    ensures "<br>" + "<br>" == "<br><br>"
  {
    assert "<br>"[1..] != "<br>"[..3] by { assert "<br>"[1..][0] == 'b'; }
    assert "<br>"[2..] != "<br>"[..2] by { assert "<br>"[2..][0] == 'r'; }
    assert "<br>"[3..] != "<br>"[..1] by { assert "<br>"[3..][0] == '>'; }
    assert ", "[1..] != ", "[..1] by { assert ", "[1..][0] == ' '; }
  }
}
