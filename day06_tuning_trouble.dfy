/** Day 6: tuning trouble. A sliding window over the datastream finds the
    first run of `size` pairwise-distinct characters. */
module TuningTrouble {

  predicate Distinct(w: string)
  {
    forall i, j :: 0 <= i < j < |w| ==> w[i] != w[j]
  }

  function CharSet(w: string): set<char>
  {
    set x | x in w
  }

  /** A window has as many distinct characters as it has characters exactly
      when no character repeats. */
  lemma {:induction false} CharSetSize(w: string)
    ensures |CharSet(w)| <= |w|
    ensures |CharSet(w)| == |w| <==> Distinct(w)
  {
    if w != [] {
      var rest := w[1..];
      CharSetSize(rest);
      assert CharSet(w) == {w[0]} + CharSet(rest) by {
        forall x ensures x in CharSet(w) <==> x in {w[0]} + CharSet(rest) {
          if x in w && x != w[0] {
            var k :| 0 <= k < |w| && w[k] == x;
            assert rest[k - 1] == x;
          }
        }
      }
      if w[0] in rest {
        assert CharSet(w) == CharSet(rest);
        var k :| 0 <= k < |rest| && rest[k] == w[0];
        assert w[k + 1] == w[0];
      } else {
        assert w[0] !in CharSet(rest);
        assert Distinct(w) <==> Distinct(rest) by {
          if Distinct(rest) {
            forall i, j | 0 <= i < j < |w| ensures w[i] != w[j] {
              if i == 0 {
                assert w[j] == rest[j - 1];
              } else {
                assert w[i] == rest[i - 1] && w[j] == rest[j - 1];
              }
            }
          }
          if Distinct(w) {
            forall i, j | 0 <= i < j < |rest| ensures rest[i] != rest[j] {
              assert rest[i] == w[i + 1] && rest[j] == w[j + 1];
            }
          }
        }
      }
    }
  }

  /** Pushes a character at the back of the window and drops the front one
      when the window grows beyond `size`. */
  function Add(window: string, c: char, size: nat): (r: string)
    ensures |window| < size ==> r == window + [c]
    ensures 0 < size <= |window| ==> r == window[1..] + [c]
    ensures |window| <= size ==> |r| <= size
  {
    var w := window + [c];
    if |w| > size then w[1..] else w
  }

  /** `p` is the 1-based position of the last character of a marker: the
      `size` characters ending there are pairwise distinct. Markers are only
      looked for from the fourth character on. */
  predicate MarkerAt(s: string, size: nat, p: nat)
  {
    4 <= p <= |s| && size <= p && Distinct(s[p - size..p])
  }

  /** The window after reading `i` characters: the last min(i, size). */
  function Window(s: string, size: nat, i: nat): (w: string)
    requires i <= |s|
    ensures |w| <= size && |w| <= i
  {
    s[i - (if i < size then i else size)..i]
  }

  /** Reading one more character slides the window, and the window then
      holds `size` distinct characters exactly at a marker. */
  lemma WindowStep(s: string, size: nat, i: nat)
    requires 3 <= size && 3 <= i < |s|
    ensures Add(Window(s, size, i), s[i], size) == Window(s, size, i + 1)
    ensures |CharSet(Window(s, size, i + 1))| == size <==> MarkerAt(s, size, i + 1)
  {
    var w := Window(s, size, i + 1);
    if i >= size {
      assert s[i - size..i][1..] + [s[i]] == s[i + 1 - size..i + 1];
    } else {
      assert s[0..i] + [s[i]] == s[0..i + 1];
    }
    CharSetSize(w);
  }

  /** No marker ends before position `i`. */
  ghost predicate NoMarkerBefore(s: string, size: nat, i: nat)
  {
    forall q :: 0 <= q < i ==> !MarkerAt(s, size, q)
  }

  /** The loop's state after reading `i` characters. */
  ghost predicate Scanned(s: string, size: nat, i: nat, marker: string, found: bool)
  {
    && i <= |s|
    && marker == Window(s, size, i)
    && NoMarkerBefore(s, size, i)
    && (found <==> MarkerAt(s, size, i))
  }

  lemma ScanStep(s: string, size: nat, i: nat, marker: string)
    requires 3 <= size && 3 <= i < |s|
    requires Scanned(s, size, i, marker, false)
    ensures Scanned(s, size, i + 1, Add(marker, s[i], size), |CharSet(Add(marker, s[i], size))| == size)
  {
    WindowStep(s, size, i);
  }

  /** Reads the first three characters, then one character at a time until
      the window holds `size` distinct characters. Returns the position of
      the last character read: the end of the first marker, the length of
      the stream when there is none, and 3 for a stream of at most three
      characters. */
  method FindMarker(s: string, size: nat) returns (pos: nat)
    ensures |s| <= 3 ==> pos == 3
    ensures |s| > 3 ==> 4 <= pos <= |s|
    ensures 3 <= size ==> forall q :: 0 <= q < pos ==> !MarkerAt(s, size, q)
    ensures 3 <= size && |s| > 3 ==> MarkerAt(s, size, pos) || pos == |s|
  {
    var marker := s[..if |s| < 3 then |s| else 3];
    pos := 3;
    var i := |marker|;
    var found := false;
    ghost var sized := 3 <= size && 3 <= |s|;
    while i < |s| && !found
      invariant |s| < 3 ==> i == |s| && pos == 3
      invariant |s| >= 3 ==> 3 <= i <= |s| && pos == i
      invariant found ==> 4 <= i
      invariant sized ==> Scanned(s, size, i, marker, found)
    {
      var c := s[i];
      pos := pos + 1;
      if sized {
        ScanStep(s, size, i, marker);
      }
      marker := Add(marker, c, size);
      i := i + 1;
      found := |CharSet(marker)| == size;
    }
    assert sized ==> NoMarkerBefore(s, size, pos);
  }

  /** The first sample stream has its first 4-marker at 5. */
  lemma ExampleMarkers()
    ensures var s := "bvwbjplbgvbhsrlpgdmjqwftvncz";
      !MarkerAt(s, 4, 4) && MarkerAt(s, 4, 5)
  {
    var s := "bvwbjplbgvbhsrlpgdmjqwftvncz";
    assert s[0..4][0] == s[0..4][3];
    assert s[1] == 'v' && s[2] == 'w' && s[3] == 'b' && s[4] == 'j';
    var w := s[1..5];
    assert w[0] == 'v' && w[1] == 'w' && w[2] == 'b' && w[3] == 'j';
  }
}
