/** Username derivation (8-Arrays/script.js, createUsernames):
    `owner.toLowerCase().split(' ').map(name => name[0]).join('')`.
    For an empty piece `name[0]` is `undefined`, which `join` writes as nothing. */
module Usernames {
  import opened Strings

  /** `map(name => name[0]).join('')` */
  function Initials(pieces: seq<string>): (r: string)
    ensures |r| <= |pieces|
  {
    if pieces == [] then ""
    else (if pieces[0] == "" then "" else [pieces[0][0]]) + Initials(pieces[1..])
  }

  /** `owner.toLowerCase().split(' ').map(name => name[0]).join('')`: the
      lower-cased first letter of every word of the owner's name, in order. */
  function Username(owner: string): (r: string)
    ensures r == LowerStr(WordStarts(owner, true))
  {
    InitialsAreWordStarts(LowerStr(owner), true);
    WordStartsLower(owner, true);
    Initials(Split(LowerStr(owner)))
  }

  /** Reference definition: the characters of `s` that are not spaces and stand at
      the start of the text (when `afterSpace` holds) or right after a space. */
  function WordStarts(s: string, afterSpace: bool): (r: string)
    ensures forall k :: 0 <= k < |r| ==> r[k] in s && r[k] != ' '
  {
    if s == [] then ""
    else if s[0] == ' ' then WordStarts(s[1..], true)
    else (if afterSpace then [s[0]] else "") + WordStarts(s[1..], false)
  }

  // ----- lemmas -----

  /** The map/join over the pieces picks exactly the word starts. */
  lemma {:induction false} InitialsAreWordStarts(s: string, afterSpace: bool)
    ensures WordStarts(s, afterSpace) == Initials(if afterSpace then Split(s) else Split(s)[1..])
  {
    if s != [] {
      InitialsAreWordStarts(s[1..], true);
      InitialsAreWordStarts(s[1..], false);
      var rest := Split(s[1..]);
      if s[0] == ' ' {
        assert Split(s) == [""] + rest;
        assert Split(s)[1..] == rest;
      } else {
        assert Split(s)[1..] == rest[1..];
      }
    }
  }

  /** Lower-casing commutes with picking the word starts. */
  lemma {:induction false} WordStartsLower(s: string, afterSpace: bool)
    ensures WordStarts(LowerStr(s), afterSpace) == LowerStr(WordStarts(s, afterSpace))
  {
    if s != [] {
      assert LowerStr(s)[1..] == LowerStr(s[1..]);
      WordStartsLower(s[1..], true);
      WordStartsLower(s[1..], false);
      if s[0] != ' ' && afterSpace {
        var w := WordStarts(s[1..], false);
        assert LowerStr([s[0]] + w) == [Lower(s[0])] + LowerStr(w);
      }
    }
  }

  /** Every non-empty piece contributes one character, every empty piece none. */
  lemma {:induction false} InitialsOfNonEmptyPieces(pieces: seq<string>)
    requires forall i :: 0 <= i < |pieces| ==> pieces[i] != ""
    ensures |Initials(pieces)| == |pieces|
    ensures forall k :: 0 <= k < |pieces| ==> Initials(pieces)[k] == pieces[k][0]
  {
    if pieces != [] {
      InitialsOfNonEmptyPieces(pieces[1..]);
    }
  }

  /** For a single-spaced name the username has one character per word, each a
      lower-cased first letter; in every case it holds no space and no upper-case
      letter and is no longer than the word count. */
  lemma UsernameShape(owner: string)
    ensures |Username(owner)| <= CountSpaces(owner) + 1
    ensures forall k :: 0 <= k < |Username(owner)| ==> Username(owner)[k] != ' ' && !IsUpper(Username(owner)[k])
    ensures SingleSpaced(owner) ==> |Username(owner)| == CountSpaces(owner) + 1
    ensures SingleSpaced(owner) ==>
              |Username(owner)| == |Split(owner)| &&
              forall k :: 0 <= k < |Split(owner)| ==>
                Split(owner)[k] != "" && Username(owner)[k] == Lower(Split(owner)[k][0])
  {
    SplitCount(owner);
    SplitLower(owner);
    var w := WordStarts(owner, true);
    assert forall k :: 0 <= k < |w| ==> LowerStr(w)[k] == Lower(w[k]);
    if SingleSpaced(owner) {
      SingleSpacedIffNoEmptyPiece(owner);
      var pieces := Split(LowerStr(owner));
      forall i | 0 <= i < |pieces| ensures pieces[i] != "" {
        assert |LowerStr(Split(owner)[i])| == |Split(owner)[i]|;
      }
      InitialsOfNonEmptyPieces(pieces);
      assert forall k :: 0 <= k < |pieces| ==> pieces[k][0] == Lower(Split(owner)[k][0]);
    }
  }

  /** A space-free word followed by a space contributes its first letter. */
  lemma {:induction false} WordStartsOfFirstWord(w: string, t: string)
    requires w != "" && ' ' !in w
    ensures WordStarts(w + " " + t, true) == [w[0]] + WordStarts(t, true)
  {
    assert (w + " " + t)[1..] == w[1..] + " " + t;
    WordStartsInsideWord(w[1..], t);
  }

  lemma {:induction false} WordStartsInsideWord(w: string, t: string)
    requires ' ' !in w
    ensures WordStarts(w + " " + t, false) == WordStarts(t, true)
  {
    if w == "" {
      assert w + " " + t == [' '] + t;
    } else {
      assert w[0] in w;
      assert (w + " " + t)[1..] == w[1..] + " " + t;
      WordStartsInsideWord(w[1..], t);
    }
  }

  lemma {:induction false} WordStartsOfLastWord(w: string)
    requires w != "" && ' ' !in w
    ensures WordStarts(w, true) == [w[0]]
  {
    WordStartsOfLastWordAux(w[1..]);
  }

  lemma {:induction false} WordStartsOfLastWordAux(w: string)
    requires ' ' !in w
    ensures WordStarts(w, false) == ""
  {
    if w != "" {
      assert w[0] in w;
      WordStartsOfLastWordAux(w[1..]);
    }
  }

  /** The seeded owners get the usernames js, jd, stw and ss.  Each name is a
      parameter fixed by the precondition rather than written into the ensures,
      so the string literal enters the proof once, at the call, instead of being
      unfolded character by character into every step. */
  lemma JonasUsername(owner: string)
    requires owner == "Jonas Schmedtmann"
    ensures Username(owner) == "js"
  {
    TwoWords(owner, "Jonas", "Schmedtmann");
  }

  lemma JessicaUsername(owner: string)
    requires owner == "Jessica Davis"
    ensures Username(owner) == "jd"
  {
    TwoWords(owner, "Jessica", "Davis");
  }

  lemma StevenUsername(owner: string)
    requires owner == "Steven Thomas Williams"
    ensures Username(owner) == "stw"
  {
    ThreeWords(owner, "Steven", "Thomas", "Williams");
  }

  lemma SarahUsername(owner: string)
    requires owner == "Sarah Smith"
    ensures Username(owner) == "ss"
  {
    TwoWords(owner, "Sarah", "Smith");
  }

  /** A name of three words gets the lower-cased initials of the three. */
  lemma ThreeWords(owner: string, first: string, middle: string, last: string)
    requires first != "" && ' ' !in first && middle != "" && ' ' !in middle
    requires last != "" && ' ' !in last
    requires owner == first + " " + middle + " " + last
    ensures Username(owner) == [Lower(first[0]), Lower(middle[0]), Lower(last[0])]
  {
    var t := middle + " " + last;
    assert owner == first + " " + t;
    WordStartsOfFirstWord(first, t);
    WordStartsOfFirstWord(middle, last);
    WordStartsOfLastWord(last);
    LowerStrCons(first[0], [middle[0], last[0]]);
    LowerStrCons(middle[0], [last[0]]);
    LowerStrCons(last[0], []);
  }

  /** A name of two words gets the lower-cased initials of the two. */
  lemma TwoWords(owner: string, first: string, last: string)
    requires first != "" && ' ' !in first && last != "" && ' ' !in last
    requires owner == first + " " + last
    ensures Username(owner) == [Lower(first[0]), Lower(last[0])]
  {
    WordStartsOfFirstWord(first, last);
    WordStartsOfLastWord(last);
    LowerStrCons(first[0], [last[0]]);
    LowerStrCons(last[0], []);
  }

  lemma LowerStrCons(c: char, s: string)
    ensures LowerStr([c] + s) == [Lower(c)] + LowerStr(s)
  {
    assert ([c] + s)[1..] == s;
  }
}
