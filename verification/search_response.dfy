/** The text handling of the UID SEARCH UNSEEN reply: Python's `bytes.strip()`
    and `str.split(' ')`, and the space-separated list of UIDs that a server
    sends (RFC 3501, section 7.2.5). */
module SearchResponse {

  /** The bytes that Python's `bytes.strip()` removes: space, tab, line feed,
      vertical tab, form feed and carriage return. */
  predicate IsAsciiWhitespace(c: char) {
    c == ' ' || 9 <= c as int <= 13
  }

  /** A UID as the SEARCH reply writes one: a non-empty run of ASCII digits. */
  predicate IsNumber(u: string) {
    |u| > 0 && forall i :: 0 <= i < |u| ==> '0' <= u[i] <= '9'
  }

  function StripLeft(s: string): (r: string)
    ensures |r| <= |s| && r == s[|s| - |r|..]
    ensures r == [] || !IsAsciiWhitespace(r[0])
    ensures forall i :: 0 <= i < |s| - |r| ==> IsAsciiWhitespace(s[i])
    decreases |s|
  {
    if s != [] && IsAsciiWhitespace(s[0]) then StripLeft(s[1..]) else s
  }

  function StripRight(s: string): (r: string)
    ensures |r| <= |s| && r == s[..|r|]
    ensures r == [] || !IsAsciiWhitespace(r[|r| - 1])
    ensures forall i :: |r| <= i < |s| ==> IsAsciiWhitespace(s[i])
    decreases |s|
  {
    if s != [] && IsAsciiWhitespace(s[|s| - 1]) then StripRight(s[..|s| - 1]) else s
  }

  /** Python's `bytes.strip()`: the text without leading or trailing ASCII
      whitespace. It is empty exactly when the text is all whitespace. */
  function Strip(s: string): (r: string)
    ensures r == [] || (!IsAsciiWhitespace(r[0]) && !IsAsciiWhitespace(r[|r| - 1]))
    ensures r == [] <==> forall i :: 0 <= i < |s| ==> IsAsciiWhitespace(s[i])
  {
    var left := StripLeft(s);
    var r := StripRight(left);
    assert r != [] ==> r[0] == left[0];
    assert r == [] ==> left == [];
    r
  }

  /** Strip removes only outer whitespace: its result is a slice of the text,
      and everything before and after that slice is whitespace. */
  lemma StripIsSlice(s: string)
    ensures exists i, j ::
              && 0 <= i <= j <= |s| && Strip(s) == s[i..j]
              && (forall k :: 0 <= k < i ==> IsAsciiWhitespace(s[k]))
              && (forall k :: j <= k < |s| ==> IsAsciiWhitespace(s[k]))
  {
    var l := StripLeft(s);
    var i := |s| - |l|;
    var j := i + |StripRight(l)|;
    assert Strip(s) == s[i..j];
  }

  /** Python's `str.split(' ')`: the pieces between single spaces, empty
      pieces included, so there is always at least one piece. */
  function Split(s: string): (r: seq<string>)
    ensures |r| >= 1
    ensures forall k :: 0 <= k < |r| ==> ' ' !in r[k]
    decreases |s|
  {
    if s == [] then [[]]
    else
      var rest := Split(s[1..]);
      if s[0] == ' ' then [[]] + rest
      else [[s[0]] + rest[0]] + rest[1..]
  }

  /** Python's `' '.join(pieces)`. */
  function Join(pieces: seq<string>): string
    decreases |pieces|
  {
    if |pieces| == 0 then []
    else if |pieces| == 1 then pieces[0]
    else pieces[0] + " " + Join(pieces[1..])
  }

  /** Joining the pieces of a split gives back the text. */
  lemma {:induction false} JoinSplit(s: string)
    ensures Join(Split(s)) == s
    decreases |s|
  {
    if s != [] {
      var rest := Split(s[1..]);
      JoinSplit(s[1..]);
      if s[0] == ' ' {
        assert Split(s) == [[]] + rest;
        assert Join(Split(s)) == [] + " " + Join(rest);
        assert s == [s[0]] + s[1..];
      } else if |rest| == 1 {
        assert Split(s) == [[s[0]] + rest[0]];
        assert s == [s[0]] + s[1..];
      } else {
        var r := Split(s);
        assert r == [[s[0]] + rest[0]] + rest[1..];
        assert r[1..] == rest[1..];
        assert Join(rest) == rest[0] + " " + Join(rest[1..]);
        assert s == [s[0]] + s[1..];
      }
    }
  }

  /** Splitting `a + t`, where `a` holds no space, glues `a` to the first
      piece of `t`. */
  lemma {:induction false} SplitPrefix(a: string, t: string)
    requires ' ' !in a
    ensures Split(a + t) == [a + Split(t)[0]] + Split(t)[1..]
    decreases |a|
  {
    if a != [] {
      assert a[0] in a;
      assert (a + t)[1..] == a[1..] + t;
      assert forall c :: c in a[1..] ==> c in a;
      SplitPrefix(a[1..], t);
      assert [a[0]] + (a[1..] + Split(t)[0]) == a + Split(t)[0];
    } else {
      assert a + t == t;
      assert a + Split(t)[0] == Split(t)[0];
      assert Split(t) == [Split(t)[0]] + Split(t)[1..];
    }
  }

  /** Splitting the join of space-free pieces gives back the pieces. */
  lemma {:induction false} SplitJoin(pieces: seq<string>)
    requires |pieces| >= 1
    requires forall k :: 0 <= k < |pieces| ==> ' ' !in pieces[k]
    ensures Split(Join(pieces)) == pieces
    decreases |pieces|
  {
    if |pieces| == 1 {
      SplitPrefix(pieces[0], []);
      assert pieces[0] + [] == pieces[0];
    } else {
      SplitJoin(pieces[1..]);
      var t := " " + Join(pieces[1..]);
      assert Join(pieces) == pieces[0] + t;
      SplitPrefix(pieces[0], t);
      assert Split(t) == [[]] + Split(Join(pieces[1..])) by {
        assert t[0] == ' ' && t[1..] == Join(pieces[1..]);
      }
      assert Split(t)[0] == [] && Split(t)[1..] == pieces[1..];
      assert pieces[0] + [] == pieces[0];
      assert pieces == [pieces[0]] + pieces[1..];
    }
  }

  /** The first character of a join is that of its first piece, the last that
      of its last piece. */
  lemma {:induction false} JoinEnds(pieces: seq<string>)
    requires |pieces| >= 1 && forall k :: 0 <= k < |pieces| ==> |pieces[k]| > 0
    ensures |Join(pieces)| > 0
    ensures Join(pieces)[0] == pieces[0][0]
    ensures Join(pieces)[|Join(pieces)| - 1] == pieces[|pieces| - 1][|pieces[|pieces| - 1]| - 1]
    decreases |pieces|
  {
    if |pieces| > 1 {
      JoinEnds(pieces[1..]);
    }
  }

  /** Text without leading or trailing whitespace is left alone by Strip. */
  lemma {:induction false} StripKeeps(s: string)
    requires s == [] || (!IsAsciiWhitespace(s[0]) && !IsAsciiWhitespace(s[|s| - 1]))
    ensures Strip(s) == s
  {
    if s != [] {
      assert StripLeft(s) == s;
      assert StripRight(s) == s;
    }
  }

  /** The UID list of `_get_unread_message_ids` from the first line of the
      SEARCH reply: empty when the stripped line is empty, otherwise the
      stripped line split on single spaces, in the server's order. */
  function ParseSearchLine(line: string): (ids: seq<string>)
    ensures ids == [] <==> forall i :: 0 <= i < |line| ==> IsAsciiWhitespace(line[i])
    ensures ids != [] ==> Join(ids) == Strip(line)
    ensures forall k :: 0 <= k < |ids| ==> ' ' !in ids[k]
  {
    var text := Strip(line);
    if text == [] then [] else JoinSplit(text); Split(text)
  }

  /** The line for a non-empty list of UIDs starts and ends with a digit. */
  lemma JoinedNumbersEnds(uids: seq<string>)
    requires uids != [] && forall k :: 0 <= k < |uids| ==> IsNumber(uids[k])
    ensures var line := Join(uids); line != [] && '0' <= line[0] <= '9' && '0' <= line[|line| - 1] <= '9'
  {
    forall k | 0 <= k < |uids| ensures |uids[k]| > 0 {
      assert IsNumber(uids[k]);
    }
    JoinEnds(uids);
    var first, last := uids[0], uids[|uids| - 1];
    assert IsNumber(first) && IsNumber(last);
    assert '0' <= first[0] <= '9' && '0' <= last[|last| - 1] <= '9';
  }

  /** The line for a non-empty list of UIDs has nothing for Strip to
      remove. */
  lemma JoinedNumbersAreStripped(uids: seq<string>)
    requires uids != [] && forall k :: 0 <= k < |uids| ==> IsNumber(uids[k])
    ensures Join(uids) != [] && Strip(Join(uids)) == Join(uids)
  {
    JoinedNumbersEnds(uids);
    StripKeeps(Join(uids));
  }

  /** The line a server sends for a list of UIDs is parsed back into that
      list, in the same order. */
  lemma SearchLineRoundTrip(uids: seq<string>)
    requires forall k :: 0 <= k < |uids| ==> IsNumber(uids[k])
    ensures ParseSearchLine(Join(uids)) == uids
  {
    if uids != [] {
      JoinedNumbersAreStripped(uids);
      forall k | 0 <= k < |uids| ensures ' ' !in uids[k] {
        assert IsNumber(uids[k]);
      }
      SplitJoin(uids);
    }
  }
}
