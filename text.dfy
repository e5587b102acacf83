/**
 * The Python string operations the converters rely on, for ASCII case
 * mapping and ASCII whitespace: lower(), upper(), capitalize(), strip(),
 * split(), split(sep), join(), replace(c, ...) and str() of an integer.
 */
module Text {
  import Seqs

  predicate IsUpperAscii(c: char) { 'A' <= c <= 'Z' }

  predicate IsLowerAscii(c: char) { 'a' <= c <= 'z' }

  /** The characters Python's str.strip() and str.split() treat as blanks. */
  predicate IsSpace(c: char) {
    c == ' ' || c == '\t' || c == '\n' || c == '\r' || c == '\U{000B}' || c == '\U{000C}'
  }

  function LowerChar(c: char): (r: char)
    ensures IsUpperAscii(c) ==> IsLowerAscii(r) && r as int == c as int + 32
    ensures !IsUpperAscii(c) ==> r == c
  {
    if IsUpperAscii(c) then (c as int + 32) as char else c
  }

  function UpperChar(c: char): (r: char)
    ensures IsLowerAscii(c) ==> IsUpperAscii(r) && r as int == c as int - 32
    ensures !IsLowerAscii(c) ==> r == c
  {
    if IsLowerAscii(c) then (c as int - 32) as char else c
  }

  /** str.lower() */
  function Lower(s: string): (r: string)
    ensures |r| == |s|
    ensures forall i :: 0 <= i < |s| ==> r[i] == LowerChar(s[i])
  {
    seq(|s|, i requires 0 <= i < |s| => LowerChar(s[i]))
  }

  /** str.upper() */
  function Upper(s: string): (r: string)
    ensures |r| == |s|
    ensures forall i :: 0 <= i < |s| ==> r[i] == UpperChar(s[i])
  {
    seq(|s|, i requires 0 <= i < |s| => UpperChar(s[i]))
  }

  lemma LowerAppend(a: string, b: string)
    ensures Lower(a + b) == Lower(a) + Lower(b)
  {
  }

  lemma LowerNoUpper(s: string)
    requires forall c :: c in s ==> !IsUpperAscii(c)
    ensures Lower(s) == s
  {
  }

  lemma LowerIdempotent(s: string)
    ensures Lower(Lower(s)) == Lower(s)
  {
  }

  lemma LowerKeepsChar(s: string, c: char)
    requires !IsUpperAscii(c) && !IsLowerAscii(c)
    ensures (c in Lower(s)) <==> (c in s)
  {
    if c in s {
      var i :| 0 <= i < |s| && s[i] == c;
      assert Lower(s)[i] == c;
    }
    if c in Lower(s) {
      var i :| 0 <= i < |s| && Lower(s)[i] == c;
      assert s[i] == c;
    }
  }

  lemma UpperKeepsChar(s: string, c: char)
    requires !IsUpperAscii(c) && !IsLowerAscii(c)
    ensures (c in Upper(s)) <==> (c in s)
  {
    if c in s {
      var i :| 0 <= i < |s| && s[i] == c;
      assert Upper(s)[i] == c;
    }
    if c in Upper(s) {
      var i :| 0 <= i < |s| && Upper(s)[i] == c;
      assert s[i] == c;
    }
  }

  /** str.replace(c, '') for a one-character pattern. */
  function Remove(s: string, c: char): (r: string)
    ensures c !in r
    ensures |r| <= |s|
    ensures forall d :: d in r ==> d in s
  {
    if s == [] then []
    else if s[0] == c then Remove(s[1..], c)
    else [s[0]] + Remove(s[1..], c)
  }

  lemma RemoveAppend(a: string, b: string, c: char)
    ensures Remove(a + b, c) == Remove(a, c) + Remove(b, c)
  {
    if a != [] {
      assert (a + b)[1..] == a[1..] + b;
      RemoveAppend(a[1..], b, c);
    } else {
      assert a + b == b;
    }
  }

  lemma RemoveAbsent(s: string, c: char)
    requires c !in s
    ensures Remove(s, c) == s
  {
  }

  lemma RemoveOnly(c: char)
    ensures Remove([c], c) == []
  {
    assert [c][0] == c;
    assert [c][1..] == [];
  }

  /** Removing the one occurrence of c between two parts that lack it joins the parts. */
  lemma RemoveBetween(a: string, b: string, c: char)
    requires c !in a && c !in b
    ensures Remove(a + [c] + b, c) == a + b
  {
    var ac := a + [c];
    RemoveAppend(ac, b, c);
    RemoveAppend(a, [c], c);
    RemoveOnly(c);
    RemoveAbsent(a, c);
    RemoveAbsent(b, c);
    assert Remove(ac, c) == a;
  }

  lemma LowerRemoveCommute(s: string, c: char)
    requires !IsUpperAscii(c) && !IsLowerAscii(c)
    ensures Lower(Remove(s, c)) == Remove(Lower(s), c)
  {
    if s != [] {
      assert Lower(s)[1..] == Lower(s[1..]);
      LowerRemoveCommute(s[1..], c);
    }
  }

  /** str.replace(c, d) for one-character pattern and replacement. */
  function ReplaceChar(s: string, c: char, d: char): (r: string)
    ensures |r| == |s|
    ensures forall i :: 0 <= i < |s| ==> r[i] == if s[i] == c then d else s[i]
    ensures c != d ==> c !in r
    ensures forall x :: x in r && x != d ==> x in s
  {
    seq(|s|, i requires 0 <= i < |s| => if s[i] == c then d else s[i])
  }

  /** s.find(c): the first index of c, or -1. */
  function Find(s: string, c: char): (r: int)
    ensures -1 <= r < |s|
    ensures r == -1 <==> c !in s
    ensures r >= 0 ==> s[r] == c && c !in s[..r]
  {
    if s == [] then -1
    else if s[0] == c then 0
    else
      var k := Find(s[1..], c);
      assert s[1..][..if k < 0 then 0 else k] == s[1..1 + (if k < 0 then 0 else k)];
      if k < 0 then -1 else k + 1
  }

  /** The leading part of s with str.lstrip() applied. */
  function TrimLeft(s: string): (r: string)
    ensures |r| <= |s| && r == s[|s| - |r|..]
    ensures r == [] || !IsSpace(r[0])
    ensures forall i :: 0 <= i < |s| - |r| ==> IsSpace(s[i])
  {
    if s != [] && IsSpace(s[0]) then TrimLeft(s[1..]) else s
  }

  function TrimRight(s: string): (r: string)
    ensures |r| <= |s| && r == s[..|r|]
    ensures r == [] || !IsSpace(r[|r| - 1])
    ensures forall i :: |r| <= i < |s| ==> IsSpace(s[i])
  {
    if s != [] && IsSpace(s[|s| - 1]) then TrimRight(s[..|s| - 1]) else s
  }

  /** str.strip() */
  function Strip(s: string): (r: string)
    ensures r == [] || (!IsSpace(r[0]) && !IsSpace(r[|r| - 1]))
    ensures |r| <= |s|
    ensures (r == []) <==> (forall i :: 0 <= i < |s| ==> IsSpace(s[i]))
  {
    var t := TrimLeft(s);
    var u := TrimRight(t);
    assert u != [] ==> u[0] == t[0];
    assert (forall i :: 0 <= i < |s| ==> IsSpace(s[i])) ==> u == [] by {
      if u != [] {
        assert u[0] == s[|s| - |t|];
      }
    }
    u
  }

  /** A non-empty text that neither starts nor ends with a blank. */
  predicate Unpadded(s: string) {
    s != [] && !IsSpace(s[0]) && !IsSpace(s[|s| - 1])
  }

  /** A text that strips to something neither starts nor ends with a blank once stripped. */
  lemma StripEnds(s: string)
    requires Strip(s) != []
    ensures Unpadded(Strip(s))
  {
  }

  /** strip() leaves a text that neither starts nor ends with a blank as it is. */
  lemma StripUnpadded(s: string)
    requires Unpadded(s)
    ensures Strip(s) == s
  {
  }

  /** find() answers the index of the first occurrence. */
  lemma FindIndex(s: string, c: char, k: nat)
    requires k < |s| && s[k] == c && c !in s[..k]
    ensures Find(s, c) == k
  {
  }

  /** str.join(parts) with separator sep. */
  function Join(parts: seq<string>, sep: string): string
  {
    if |parts| == 0 then ""
    else if |parts| == 1 then parts[0]
    else parts[0] + sep + Join(parts[1..], sep)
  }

  /** s.split(sep) for a one-character separator. */
  function Split(s: string, sep: char): (r: seq<string>)
    ensures |r| >= 1
    ensures forall i :: 0 <= i < |r| ==> sep !in r[i]
  {
    if s == [] then [""]
    else
      var rest := Split(s[1..], sep);
      if s[0] == sep then [""] + rest
      else [[s[0]] + rest[0]] + rest[1..]
  }

  lemma {:induction false} JoinSplit(s: string, sep: char)
    ensures Join(Split(s, sep), [sep]) == s
  {
    if s != [] {
      JoinSplit(s[1..], sep);
      if s[0] == sep {
        JoinSplitAtSep(s, sep);
      } else {
        JoinSplitInPart(s, sep);
      }
    }
  }

  lemma JoinSplitAtSep(s: string, sep: char)
    requires s != [] && s[0] == sep && Join(Split(s[1..], sep), [sep]) == s[1..]
    ensures Join(Split(s, sep), [sep]) == s
  {
    var rest := Split(s[1..], sep);
    assert Split(s, sep) == [""] + rest;
    assert ([""] + rest)[1..] == rest;
  }

  lemma JoinSplitInPart(s: string, sep: char)
    requires s != [] && s[0] != sep && Join(Split(s[1..], sep), [sep]) == s[1..]
    ensures Join(Split(s, sep), [sep]) == s
  {
    var rest := Split(s[1..], sep);
    var r := [[s[0]] + rest[0]] + rest[1..];
    assert Split(s, sep) == r;
    assert r[0] == [s[0]] + rest[0];
    assert r[1..] == rest[1..];
    if |rest| == 1 {
      assert Join(rest, [sep]) == rest[0];
      assert Join(r, [sep]) == r[0];
    } else {
      JoinHead(rest, [sep]);
      JoinHead(r, [sep]);
      Seqs.AppendAssoc([s[0]], rest[0], [sep]);
      Seqs.AppendAssoc([s[0]], rest[0] + [sep], Join(rest[1..], [sep]));
    }
    assert s == [s[0]] + s[1..];
  }

  /** A join of several parts is the first part, the separator and the join of the others. */
  lemma JoinHead(parts: seq<string>, sep: string)
    requires |parts| > 1
    ensures Join(parts, sep) == parts[0] + sep + Join(parts[1..], sep)
  {
  }

  lemma {:induction false} SplitJoin(parts: seq<string>, sep: char)
    requires |parts| >= 1
    requires forall i :: 0 <= i < |parts| ==> sep !in parts[i]
    ensures Split(Join(parts, [sep]), sep) == parts
    decreases |parts|, |parts[0]|
  {
    if |parts| == 1 {
      SplitNoSep(parts[0], sep);
    } else if parts[0] == [] {
      SplitJoin(parts[1..], sep);
      SplitJoinEmptyHead(parts, sep);
    } else {
      var parts' := [parts[0][1..]] + parts[1..];
      assert parts'[1..] == parts[1..];
      SplitJoin(parts', sep);
      SplitJoinCons(parts, sep);
    }
  }

  lemma SplitJoinEmptyHead(parts: seq<string>, sep: char)
    requires |parts| > 1 && parts[0] == []
    requires Split(Join(parts[1..], [sep]), sep) == parts[1..]
    ensures Split(Join(parts, [sep]), sep) == parts
  {
    var tail := parts[1..];
    JoinHead(parts, [sep]);
    Seqs.AppendEmpty([sep]);
    SplitAtSep(Join(tail, [sep]), sep);
    assert parts == [parts[0]] + tail;
  }

  /** A text starting with the separator splits into '' and the parts of the rest. */
  lemma SplitAtSep(x: string, sep: char)
    ensures Split([sep] + x, sep) == [""] + Split(x, sep)
  {
    assert ([sep] + x)[1..] == x;
  }

  lemma SplitJoinCons(parts: seq<string>, sep: char)
    requires |parts| > 1 && parts[0] != [] && parts[0][0] != sep
    requires Split(Join([parts[0][1..]] + parts[1..], [sep]), sep) == [parts[0][1..]] + parts[1..]
    ensures Split(Join(parts, [sep]), sep) == parts
  {
    var p := parts[0];
    var parts' := [p[1..]] + parts[1..];
    assert parts'[1..] == parts[1..];
    var j := Join(parts, [sep]);
    assert j == p + [sep] + Join(parts[1..], [sep]);
    assert j[1..] == Join(parts', [sep]);
    assert p == [p[0]] + p[1..];
  }

  lemma {:induction false} SplitNoSep(s: string, sep: char)
    requires sep !in s
    ensures Split(s, sep) == [s]
  {
    if s != [] {
      SplitNoSep(s[1..], sep);
      assert s == [s[0]] + s[1..];
    }
  }

  lemma {:induction false} JoinAvoids(parts: seq<string>, sep: string, c: char)
    requires c !in sep
    requires forall i :: 0 <= i < |parts| ==> c !in parts[i]
    ensures c !in Join(parts, sep)
  {
    if |parts| > 1 {
      JoinAvoids(parts[1..], sep, c);
    }
  }

  /** The first part s.split(sep) gives is the text before the first sep, or all of s. */
  lemma {:induction false} SplitFirst(s: string, sep: char)
    ensures Split(s, sep)[0] == if sep in s then s[..Find(s, sep)] else s
  {
    if s != [] && s[0] != sep {
      SplitFirst(s[1..], sep);
      SplitFirstStep(s, sep);
    }
  }

  lemma SplitFirstStep(s: string, sep: char)
    requires s != [] && s[0] != sep
    requires Split(s[1..], sep)[0] == if sep in s[1..] then s[1..][..Find(s[1..], sep)] else s[1..]
    ensures Split(s, sep)[0] == if sep in s then s[..Find(s, sep)] else s
  {
    assert s == [s[0]] + s[1..];
    if sep in s[1..] {
      assert s[..Find(s, sep)] == [s[0]] + s[1..][..Find(s[1..], sep)];
    }
  }

  /** Length of the first run of non-blank characters of s. */
  function WordLength(s: string): (n: nat)
    ensures n <= |s|
    ensures forall i :: 0 <= i < n ==> !IsSpace(s[i])
    ensures n < |s| ==> IsSpace(s[n])
  {
    if s == [] || IsSpace(s[0]) then 0 else 1 + WordLength(s[1..])
  }

  /** A word as str.split() gives it: non-empty, with no blank in it. */
  predicate IsWord(w: string) {
    w != [] && forall c :: c in w ==> !IsSpace(c)
  }

  /** str.split() with no argument: the maximal runs of non-blank characters. */
  function Words(s: string): (r: seq<string>)
    ensures forall i :: 0 <= i < |r| ==> IsWord(r[i])
    decreases |s|
  {
    var t := TrimLeft(s);
    if t == [] then []
    else
      var n := WordLength(t);
      FirstWord(t);
      var rest := Words(t[n..]);
      WordsCons(t[..n], rest);
      [t[..n]] + rest
  }

  /** The first run of non-blank characters of a text that starts with one is a word. */
  lemma FirstWord(t: string)
    requires t != [] && !IsSpace(t[0])
    ensures WordLength(t) > 0 && IsWord(t[..WordLength(t)])
  {
    var n := WordLength(t);
    forall c | c in t[..n] ensures !IsSpace(c) {
      var i :| 0 <= i < n && t[..n][i] == c;
      assert t[i] == c;
    }
  }

  lemma WordsCons(w: string, rest: seq<string>)
    requires IsWord(w) && forall i :: 0 <= i < |rest| ==> IsWord(rest[i])
    ensures forall i :: 0 <= i < |[w] + rest| ==> IsWord(([w] + rest)[i])
  {
    forall i | 0 <= i < |[w] + rest| ensures IsWord(([w] + rest)[i]) {
      if i > 0 {
        assert ([w] + rest)[i] == rest[i - 1];
      }
    }
  }

  /** A text with no blank in it is one word. */
  lemma WordsOfOneWord(w: string)
    requires w != [] && forall c :: c in w ==> !IsSpace(c)
    ensures Words(w) == [w]
  {
    assert WordLength(w) == |w|;
    assert TrimLeft(w) == w;
    assert w[..|w|] == w && w[|w|..] == [];
    assert TrimLeft([]) == [];
  }

  /** str.capitalize(): first character upper case, the rest lower case. */
  function Capitalize(w: string): (r: string)
    ensures |r| == |w|
  {
    if w == [] then [] else [UpperChar(w[0])] + Lower(w[1..])
  }

  /** A character that is not a letter occurs in w.capitalize() exactly when it occurs in w. */
  lemma CapitalizeKeepsChar(w: string, c: char)
    requires !IsUpperAscii(c) && !IsLowerAscii(c)
    ensures (c in Capitalize(w)) <==> (c in w)
  {
    if w != [] {
      LowerKeepsChar(w[1..], c);
      assert w == [w[0]] + w[1..];
    }
  }

  /** The words of s, each capitalized. */
  function CapitalizedWords(s: string): (r: seq<string>)
    ensures |r| == |Words(s)|
    ensures forall i :: 0 <= i < |r| ==> r[i] == Capitalize(Words(s)[i]) && ' ' !in r[i]
  {
    var ws := Words(s);
    forall i | 0 <= i < |ws| ensures ' ' !in Capitalize(ws[i]) {
      CapitalizeKeepsChar(ws[i], ' ');
    }
    seq(|ws|, i requires 0 <= i < |ws| => Capitalize(ws[i]))
  }

  /** A single word capitalized on its own. */
  lemma CapitalizedOneWord(w: string)
    requires w != [] && forall c :: c in w ==> !IsSpace(c)
    ensures CapitalizedWords(w) == [Capitalize(w)]
    ensures Join(CapitalizedWords(w), "") == Capitalize(w)
  {
    WordsOfOneWord(w);
  }

  /** string.capwords(s): capitalize every word and join them with single spaces. */
  function CapWords(s: string): string
  {
    Join(CapitalizedWords(s), " ")
  }

  /** Splitting capwords(s) at its spaces gives back the capitalized words, so ''.join of it glues them together. */
  lemma CapWordsGlued(s: string)
    ensures Join(Split(CapWords(s), ' '), "") == Join(CapitalizedWords(s), "")
  {
    var cw := CapitalizedWords(s);
    if cw != [] {
      SplitJoin(cw, ' ');
    }
  }

  function DigitChar(d: nat): (c: char)
    requires d < 10
    ensures '0' <= c <= '9' && c as int - '0' as int == d
  {
    (d + '0' as int) as char
  }

  /** str(n) for a natural number: its decimal digits, no leading zero. */
  function NatToString(n: nat): (r: string)
    ensures r != []
    ensures forall i :: 0 <= i < |r| ==> '0' <= r[i] <= '9'
    ensures r[0] == '0' ==> n == 0
    decreases n
  {
    if n < 10 then [DigitChar(n)] else NatToString(n / 10) + [DigitChar(n % 10)]
  }

  /** str(i) for an integer. */
  function IntToString(i: int): (r: string)
    ensures r != []
    ensures r[0] == '-' || '0' <= r[0] <= '9'
  {
    if i < 0 then "-" + NatToString(-i) else NatToString(i)
  }
}
