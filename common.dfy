/** Values and JavaScript idioms shared by every page: optional values, the
    outcome of an awaited request, toasts, `String.prototype.trim`, the
    `x || undefined` / `x || fallback` conversions and `Array.prototype.filter`. */
module Common {

  datatype Option<+T> = None | Some(value: T) {
    /** `value || default` for a present-or-absent field */
    function GetOr(default: T): T {
      if Some? then value else default
    }
  }

  /** The outcome of one awaited request: the response body, or a thrown
      error carrying the `message` field of the error response when it has one. */
  datatype Response<+T> = Success(data: T) | Failure(message: Option<string>)

  /** A toast notification; its three-second timer is not modelled. */
  datatype Toast = Toast(text: string, isError: bool)

  /** `s || undefined` for a form string: the empty string becomes absent. */
  function OrAbsent(s: string): (r: Option<string>)
    ensures r.None? <==> s == ""
    ensures r.Some? ==> r.value == s
  {
    if s == "" then None else Some(s)
  }

  /** `err.response?.data?.message || fallback`: an empty message is falsy too. */
  function MessageOr(message: Option<string>, fallback: string): (r: string)
    ensures r == fallback || (message.Some? && r == message.value)
    ensures r == "" ==> fallback == ""
  {
    if message.Some? && message.value != "" then message.value else fallback
  }

  /** The characters `String.prototype.trim` removes: the ECMAScript
      WhiteSpace (tab, vertical tab, form feed, space, no-break space, byte
      order mark and the Unicode space separators) and LineTerminator sets. */
  predicate IsSpace(c: char) {
    || c == '\t' || c == '\n' || c == '\U{000B}' || c == '\U{000C}' || c == '\r'
    || c == ' ' || c == '\U{00A0}' || c == '\U{1680}'
    || ('\U{2000}' <= c <= '\U{200A}')
    || c == '\U{2028}' || c == '\U{2029}' || c == '\U{202F}' || c == '\U{205F}'
    || c == '\U{3000}' || c == '\U{FEFF}'
  }

  /** Drops leading white space. */
  function TrimStart(s: string): string {
    if s != [] && IsSpace(s[0]) then TrimStart(s[1..]) else s
  }

  /** Drops trailing white space. */
  function TrimEnd(s: string): string {
    if s != [] && IsSpace(s[|s| - 1]) then TrimEnd(s[..|s| - 1]) else s
  }

  /** `s.trim()`: the middle of `s` between the white space at its start,
      `lead` characters long, and the white space at its end; what is left
      neither starts nor ends with white space. */
  function Trim(s: string): (r: string)
    ensures |TrimStart(s)| <= |s| && |r| <= |TrimStart(s)|
    ensures var lead := |s| - |TrimStart(s)|;
      && r == s[lead..lead + |r|]
      && (forall i :: 0 <= i < lead ==> IsSpace(s[i]))
      && (forall i :: lead + |r| <= i < |s| ==> IsSpace(s[i]))
    ensures r != [] ==> !IsSpace(r[0]) && !IsSpace(r[|r| - 1])
  {
    TrimStartFacts(s);
    var t := TrimStart(s);
    TrimEndFacts(t);
    var lead := |s| - |t|;
    var r := TrimEnd(t);
    assert forall i :: lead + |r| <= i < |s| ==> s[i] == t[i - lead];
    r
  }

  /** `!s.trim()`: a string is blank exactly when every one of its
      characters is white space. */
  function IsBlank(s: string): (b: bool)
    ensures b <==> forall i :: 0 <= i < |s| ==> IsSpace(s[i])
  {
    var r := Trim(s);
    assert r != [] ==> s[|s| - |TrimStart(s)|] == r[0];
    r == ""
  }

  /** The result of `TrimStart` is a suffix of its input, only white space
      was dropped, and it does not start with white space. */
  lemma {:induction false} TrimStartFacts(s: string)
    ensures |TrimStart(s)| <= |s| && TrimStart(s) == s[|s| - |TrimStart(s)|..]
    ensures forall i :: 0 <= i < |s| - |TrimStart(s)| ==> IsSpace(s[i])
    ensures TrimStart(s) != [] ==> !IsSpace(TrimStart(s)[0])
  {
    if s != [] && IsSpace(s[0]) {
      TrimStartFacts(s[1..]);
      forall i | 0 <= i < |s| - |TrimStart(s)|
        ensures IsSpace(s[i])
      {
        if i > 0 {
          assert s[i] == s[1..][i - 1];
        }
      }
    }
  }

  /** The result of `TrimEnd` is a prefix of its input, only white space was
      dropped, and it does not end with white space. */
  lemma {:induction false} TrimEndFacts(s: string)
    ensures |TrimEnd(s)| <= |s| && TrimEnd(s) == s[..|TrimEnd(s)|]
    ensures forall i :: |TrimEnd(s)| <= i < |s| ==> IsSpace(s[i])
    ensures TrimEnd(s) != [] ==> !IsSpace(TrimEnd(s)[|TrimEnd(s)| - 1])
  {
    if s != [] && IsSpace(s[|s| - 1]) {
      TrimEndFacts(s[..|s| - 1]);
      forall i | |TrimEnd(s)| <= i < |s|
        ensures IsSpace(s[i])
      {
        if i < |s| - 1 {
          assert s[i] == s[..|s| - 1][i];
        }
      }
    }
  }

  /** The quotient is the one `q` whose multiples bracket `x`. */
  lemma DivBracket(x: nat, y: nat, q: nat)
    requires y > 0 && q * y <= x < (q + 1) * y
    ensures x / y == q
  {
    var r := x / y;
    assert x == r * y + x % y;
    assert 0 <= x % y < y;
    if r < q {
      MulMono(r + 1, q, y);
      assert false;
    } else if r > q {
      MulMono(q + 1, r, y);
      assert false;
    }
  }

  lemma MulMono(a: nat, b: nat, y: nat)
    requires a <= b
    ensures a * y <= b * y
  {
    assert b * y == a * y + (b - a) * y;
  }

  /** A quotient is at most `k` when the dividend is at most `k` times the divisor. */
  lemma DivAtMost(x: nat, y: nat, k: nat)
    requires y > 0 && x <= k * y
    ensures x / y <= k
  {
    var q := x / y;
    assert x == q * y + x % y;
    if q > k {
      MulMono(k + 1, q, y);
      assert false;
    }
  }

  /** `s.filter(keep)`: the elements of `s` that satisfy `keep`, in order. */
  function Filter<T(!new)>(s: seq<T>, keep: T -> bool): (r: seq<T>)
    ensures |r| <= |s|
  {
    if s == [] then [] else (if keep(s[0]) then [s[0]] else []) + Filter(s[1..], keep)
  }

  /** A filter keeps each element that satisfies `keep` exactly as often as
      it occurs in `s`, and no other element. */
  lemma {:induction false} FilterFacts<T(!new)>(s: seq<T>, keep: T -> bool)
    ensures forall x :: multiset(Filter(s, keep))[x] == if keep(x) then multiset(s)[x] else 0
    ensures forall x :: x in Filter(s, keep) <==> x in s && keep(x)
  {
    if s != [] {
      FilterFacts(s[1..], keep);
      assert s == [s[0]] + s[1..];
    }
  }

  /** A condition that holds of nothing keeps nothing. */
  lemma {:induction false} FilterNone<T(!new)>(s: seq<T>, keep: T -> bool)
    requires forall x :: !keep(x)
    ensures Filter(s, keep) == []
  {
    if s != [] {
      FilterNone(s[1..], keep);
    }
  }

  /** Filtering keeps relative order: it distributes over concatenation. */
  lemma {:induction false} FilterAppend<T(!new)>(a: seq<T>, b: seq<T>, keep: T -> bool)
    ensures Filter(a + b, keep) == Filter(a, keep) + Filter(b, keep)
  {
    if a == [] {
      assert a + b == b;
    } else {
      var ab := a + b;
      assert ab[0] == a[0];
      assert ab[1..] == a[1..] + b;
      FilterAppend(a[1..], b, keep);
      var h: seq<T> := if keep(a[0]) then [a[0]] else [];
      var fa, fb := Filter(a[1..], keep), Filter(b, keep);
      calc {
        Filter(ab, keep);
        h + Filter(a[1..] + b, keep);
        h + (fa + fb);
        { assert h + (fa + fb) == (h + fa) + fb; }
        (h + fa) + fb;
        Filter(a, keep) + fb;
      }
    }
  }

  /** What a filter keeps of a one-element list. */
  lemma FilterSingleton<T(!new)>(x: T, keep: T -> bool)
    ensures Filter([x], keep) == if keep(x) then [x] else []
  {
    assert [x][1..] == [];
  }

  /** Filtering by a disjunction of two conditions that never hold together
      keeps as many elements as the two filters together. */
  lemma {:induction false} FilterDisjointCount<T(!new)>(s: seq<T>, p: T -> bool, q: T -> bool, pq: T -> bool)
    requires forall x :: pq(x) == (p(x) || q(x))
    requires forall x :: !(p(x) && q(x))
    ensures |Filter(s, pq)| == |Filter(s, p)| + |Filter(s, q)|
  {
    if s != [] {
      FilterDisjointCount(s[1..], p, q, pq);
    }
  }

  /** `s.split(' ')`: the pieces between single spaces. Leading, trailing and
      repeated spaces give empty pieces, and there is always at least one. */
  function Split(s: string): (ws: seq<string>)
    ensures |ws| >= 1
    ensures forall i :: 0 <= i < |ws| ==> ' ' !in ws[i]
  {
    if s == [] then [""]
    else
      var rest := Split(s[1..]);
      if s[0] == ' ' then [""] + rest
      else [[s[0]] + rest[0]] + rest[1..]
  }

  /** `ws.join(' ')`. */
  function JoinSpaces(ws: seq<string>): string
    requires |ws| >= 1
  {
    if |ws| == 1 then ws[0] else ws[0] + " " + JoinSpaces(ws[1..])
  }

  lemma {:induction false} JoinPrefix(p: string, ws: seq<string>)
    requires |ws| >= 1
    ensures JoinSpaces([p + ws[0]] + ws[1..]) == p + JoinSpaces(ws)
  {
    var vs := [p + ws[0]] + ws[1..];
    if |ws| > 1 {
      assert vs[1..] == ws[1..];
      assert (p + ws[0]) + " " + JoinSpaces(ws[1..]) == p + (ws[0] + " " + JoinSpaces(ws[1..]));
    }
  }

  /** Joining the pieces with single spaces gives the string back. */
  lemma {:induction false} JoinSplit(s: string)
    ensures JoinSpaces(Split(s)) == s
  {
    if s != [] {
      var rest := Split(s[1..]);
      JoinSplit(s[1..]);
      if s[0] == ' ' {
        assert ([""] + rest)[1..] == rest;
      } else {
        JoinPrefix([s[0]], rest);
      }
    }
  }

  /** Splitting a space-free word followed by `s` extends the first piece. */
  lemma {:induction false} SplitWord(w: string, s: string)
    requires ' ' !in w
    ensures Split(w + s) == [w + Split(s)[0]] + Split(s)[1..]
  {
    if w != [] {
      assert w[0] in w;
      assert (w + s)[0] == w[0] && (w + s)[1..] == w[1..] + s;
      assert ' ' !in w[1..] by {
        forall i | 0 <= i < |w[1..]| ensures w[1..][i] != ' ' {
          assert w[1..][i] == w[i + 1];
        }
      }
      SplitWord(w[1..], s);
      var r := Split(w[1..] + s);
      assert r[0] == w[1..] + Split(s)[0] && r[1..] == Split(s)[1..];
      assert Split(w + s) == [[w[0]] + r[0]] + r[1..];
      assert [w[0]] + (w[1..] + Split(s)[0]) == w + Split(s)[0];
    } else {
      assert w + s == s;
      assert w + Split(s)[0] == Split(s)[0];
      assert Split(s) == [Split(s)[0]] + Split(s)[1..];
    }
  }

  /** Splitting space-free words joined with single spaces gives the words back. */
  lemma {:induction false} SplitJoin(ws: seq<string>)
    requires |ws| >= 1
    requires forall i :: 0 <= i < |ws| ==> ' ' !in ws[i]
    ensures Split(JoinSpaces(ws)) == ws
  {
    if |ws| == 1 {
      SplitWord(ws[0], "");
      assert ws[0] + "" == ws[0];
    } else {
      var rest := JoinSpaces(ws[1..]);
      SplitJoin(ws[1..]);
      assert (" " + rest)[0] == ' ' && (" " + rest)[1..] == rest;
      assert Split(" " + rest) == [""] + ws[1..];
      SplitWord(ws[0], " " + rest);
      assert ws[0] + " " + rest == ws[0] + (" " + rest);
      assert ws[0] + "" == ws[0];
      assert ws == [ws[0]] + ws[1..];
    }
  }
}
