/** The JavaScript string operations the program relies on, restricted to ASCII
    case mapping: `toLowerCase`, `toUpperCase`, `split(' ')` and `join(' ')`. */
module Strings {

  predicate IsUpper(c: char) { 'A' <= c <= 'Z' }
  predicate IsLower(c: char) { 'a' <= c <= 'z' }

  /** ASCII `toLowerCase` of one character. */
  function Lower(c: char): (r: char)
    ensures !IsUpper(r)
    ensures r == ' ' <==> c == ' '
    ensures IsUpper(c) ==> IsLower(r) && r as int == c as int + 32
    ensures !IsUpper(c) ==> r == c
  {
    if IsUpper(c) then (c as int + 32) as char else c
  }

  /** ASCII `toUpperCase` of one character. */
  function Upper(c: char): (r: char)
    ensures !IsLower(r)
    ensures r == ' ' <==> c == ' '
    ensures IsLower(c) ==> IsUpper(r) && r as int == c as int - 32
    ensures !IsLower(c) ==> r == c
  {
    if IsLower(c) then (c as int - 32) as char else c
  }

  /** `s.toLowerCase()` */
  function LowerStr(s: string): (r: string)
    ensures |r| == |s|
    ensures forall i :: 0 <= i < |s| ==> r[i] == Lower(s[i])
  {
    if s == [] then [] else [Lower(s[0])] + LowerStr(s[1..])
  }

  /** `s.split(' ')`: the pieces between single spaces; two adjacent spaces, or a
      space at either end, give an empty piece, and there is always one piece more
      than there are spaces. */
  function Split(s: string): (r: seq<string>)
    ensures |r| >= 1
    ensures forall i :: 0 <= i < |r| ==> ' ' !in r[i]
  {
    if s == [] then [""]
    else if s[0] == ' ' then [""] + Split(s[1..])
    else
      var rest := Split(s[1..]);
      [[s[0]] + rest[0]] + rest[1..]
  }

  /** `words.join(' ')`: the text starts with the first word, and a space
      follows it when more words come. */
  function Join(words: seq<string>): (r: string)
    ensures words != [] ==> words[0] <= r
    ensures |words| > 1 ==> |r| > |words[0]| && r[|words[0]|] == ' '
  {
    if words == [] then ""
    else if |words| == 1 then words[0]
    else words[0] + " " + Join(words[1..])
  }

  function CountSpaces(s: string): nat
  {
    if s == [] then 0 else (if s[0] == ' ' then 1 else 0) + CountSpaces(s[1..])
  }

  /** No two adjacent spaces. */
  predicate NoDoubleSpace(s: string)
  {
    forall i :: 0 <= i < |s| - 1 && s[i] == ' ' ==> s[i + 1] != ' '
  }

  /** Words separated by exactly one space, with none at either end. */
  predicate SingleSpaced(s: string)
  {
    |s| > 0 && s[0] != ' ' && s[|s| - 1] != ' ' && NoDoubleSpace(s)
  }

  // ----- lemmas -----

  /** `split` yields one piece more than there are spaces. */
  lemma {:induction false} SplitCount(s: string)
    ensures |Split(s)| == CountSpaces(s) + 1
  {
    if s != [] {
      SplitCount(s[1..]);
    }
  }

  /** Joining the pieces gives back the string. */
  lemma {:induction false} JoinSplit(s: string)
    ensures Join(Split(s)) == s
  {
    if s != [] {
      JoinSplit(s[1..]);
      var rest := Split(s[1..]);
      if s[0] == ' ' {
        assert Split(s) == [""] + rest;
        assert Join(Split(s)) == "" + " " + Join(rest);
      } else {
        if |rest| > 1 {
          assert Join(rest) == rest[0] + " " + Join(rest[1..]);
        }
      }
    }
  }

  /** A piece without spaces splits into itself. */
  lemma {:induction false} SplitWord(w: string)
    requires ' ' !in w
    ensures Split(w) == [w]
  {
    if w != [] {
      assert w[0] in w && [w[0]] + w[1..] == w;
      SplitWord(w[1..]);
    }
  }

  /** A piece without spaces followed by a space splits off as the first piece. */
  lemma {:induction false} SplitFirstWord(w: string, t: string)
    requires ' ' !in w
    ensures Split(w + " " + t) == [w] + Split(t)
  {
    if w == [] {
      assert w + " " + t == [' '] + t;
    } else {
      assert w[0] in w && [w[0]] + w[1..] == w;
      assert (w + " " + t)[1..] == w[1..] + " " + t;
      SplitFirstWord(w[1..], t);
    }
  }

  /** Splitting the join of space-free words gives the words back. */
  lemma {:induction false} SplitJoin(words: seq<string>)
    requires |words| >= 1
    requires forall i :: 0 <= i < |words| ==> ' ' !in words[i]
    ensures Split(Join(words)) == words
  {
    if |words| == 1 {
      SplitWord(words[0]);
    } else {
      SplitJoin(words[1..]);
      SplitFirstWord(words[0], Join(words[1..]));
    }
  }

  /** Lower-casing keeps the spaces where they are, so the pieces are the
      lower-cased pieces. */
  lemma {:induction false} SplitLower(s: string)
    ensures |Split(LowerStr(s))| == |Split(s)|
    ensures forall i :: 0 <= i < |Split(s)| ==> Split(LowerStr(s))[i] == LowerStr(Split(s)[i])
  {
    if s != [] {
      SplitLower(s[1..]);
      assert LowerStr(s)[1..] == LowerStr(s[1..]);
      if s[0] != ' ' {
        var rest := Split(s[1..]);
        assert LowerStr([s[0]] + rest[0]) == [Lower(s[0])] + LowerStr(rest[0]);
      }
    }
  }

  /** The text after the first character of a word: no double space and no
      trailing space. */
  predicate TailSpaced(s: string)
  {
    (s == [] || s[|s| - 1] != ' ') && NoDoubleSpace(s)
  }

  /** Single spacing is exactly the condition under which no piece is empty. */
  lemma {:induction false} SingleSpacedIffNoEmptyPiece(s: string)
    ensures SingleSpaced(s) <==> forall i :: 0 <= i < |Split(s)| ==> Split(s)[i] != ""
    decreases |s|, 1
  {
    if s == [] {
      assert Split(s)[0] == "";
    } else if s[0] == ' ' {
      assert Split(s) == [""] + Split(s[1..]);
      assert Split(s)[0] == "";
    } else {
      LaterPiecesNonEmpty(s);
      NoDoubleSpaceCons(s);
      assert Split(s)[0] != "";
    }
  }

  /** The pieces after the first are non-empty exactly when there is no double and
      no trailing space. */
  lemma {:induction false} LaterPiecesNonEmpty(s: string)
    ensures (forall i :: 1 <= i < |Split(s)| ==> Split(s)[i] != "") <==> TailSpaced(s)
    decreases |s|, 0
  {
    if s != [] {
      var u := s[1..];
      NoDoubleSpaceCons(s);
      if s[0] == ' ' {
        SingleSpacedIffNoEmptyPiece(u);
        var t := Split(u);
        assert Split(s) == [""] + t;
        assert forall j :: 0 <= j < |t| ==> t[j] == Split(s)[j + 1];
        assert TailSpaced(s) <==> SingleSpaced(u) by {
          if u != [] {
            assert s[|s| - 1] == u[|u| - 1] && s[1] == u[0];
          }
        }
      } else {
        LaterPiecesNonEmpty(u);
        assert Split(s)[1..] == Split(u)[1..];
        if u != [] {
          assert s[|s| - 1] == u[|u| - 1];
        }
      }
    }
  }

  /** No double space in a non-empty string: none in its tail, and no double space
      at its start. */
  lemma NoDoubleSpaceCons(s: string)
    requires s != []
    ensures NoDoubleSpace(s) <==> NoDoubleSpace(s[1..]) && (|s| > 1 && s[0] == ' ' ==> s[1] != ' ')
  {
    var u := s[1..];
    if NoDoubleSpace(u) && (|s| > 1 && s[0] == ' ' ==> s[1] != ' ') {
      forall i | 1 <= i < |s| - 1 && s[i] == ' ' ensures s[i + 1] != ' ' {
        assert u[i - 1] == ' ' && u[i] == s[i + 1];
      }
    }
    if NoDoubleSpace(s) {
      forall j | 0 <= j < |u| - 1 && u[j] == ' ' ensures u[j + 1] != ' ' {
        assert s[j + 1] == ' ' && s[j + 2] == u[j + 1];
      }
    }
  }
}
