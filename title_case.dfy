/** `convertTitleCase` (8-Arrays/script.js:691-702): lower-case the title, split it
    on single spaces, capitalise every word that is not one of the exceptions, join
    with single spaces and capitalise the result once more. */
module TitleCase {
  import opened Strings

  const Exceptions: seq<string> := ["a", "an", "and", "the", "but", "or", "on", "in", "with"]

  /** `capitilize`: `str[0].toUpperCase() + str.slice(1)`.  On "" the program
      fails (`str[0]` is `undefined`), hence the precondition. */
  function Capitalize(w: string): (r: string)
    requires w != ""
    ensures |r| == |w| && r[1..] == w[1..]
    ensures !IsLower(r[0]) && Lower(r[0]) == Lower(w[0])
    ensures r[0] == ' ' <==> w[0] == ' '
  {
    [Upper(w[0])] + w[1..]
  }

  /** `exceptions.includes(word) ? word : capitilize(word)`: only the first
      letter can change, and it does exactly when the word is not an exception
      and starts with a lower-case letter. */
  function TitleWord(w: string): (r: string)
    requires w != ""
    ensures |r| == |w| && r[1..] == w[1..]
    ensures r == w <==> w in Exceptions || !IsLower(w[0])
    ensures w !in Exceptions ==> !IsLower(r[0])
    ensures Lower(r[0]) == Lower(w[0])
  {
    if w in Exceptions then w else Capitalize(w)
  }

  /** `map(word => …)` over the words: word by word, the exceptions are kept, and
      every other word keeps its length and all but its first letter, which
      becomes its upper-case form (the same letter up to case, and not lower-case),
      so a word that does not start lower-case is kept as it is. */
  function TitleWords(words: seq<string>): (r: seq<string>)
    requires forall i :: 0 <= i < |words| ==> words[i] != ""
    ensures |r| == |words|
    ensures forall i :: 0 <= i < |r| ==>
              |r[i]| == |words[i]| && r[i][1..] == words[i][1..] &&
              (words[i] in Exceptions ==> r[i] == words[i]) &&
              (words[i] !in Exceptions ==> !IsLower(r[i][0])) &&
              Lower(r[i][0]) == Lower(words[i][0]) &&
              (!IsLower(words[i][0]) ==> r[i] == words[i])
  {
    seq(|words|, i requires 0 <= i < |words| => TitleWord(words[i]))
  }

  /** The program's convertTitleCase.  It only succeeds on single-spaced titles
      (SingleSpacedIffNoEmptyPiece: otherwise some word is empty and capitalising
      it fails).  The result has the title's words, in order: the first one and
      every word that is not an exception capitalised, the exceptions after the
      first left in lower case, and the rest of every word lower-cased. */
  function ConvertTitleCase(title: string): (r: string)
    requires SingleSpaced(title)
    ensures |Split(r)| == |Split(title)|
    ensures forall i :: 0 <= i < |Split(title)| ==>
              var w := LowerStr(Split(title)[i]);
              w != "" && Split(r)[i] == if i > 0 && w in Exceptions then w else Capitalize(w)
    ensures r != "" && r[0] == Upper(Lower(title[0]))
  {
    var words := Split(LowerStr(title));
    WordsOfSingleSpaced(title);
    var mapped := TitleWords(words);
    var joined := Join(mapped);
    forall i | 0 <= i < |mapped| ensures ' ' !in mapped[i] {
      if words[i] !in Exceptions {
        assert forall k :: 1 <= k < |mapped[i]| ==> mapped[i][k] == words[i][k];
      }
    }
    SplitJoin(mapped);
    JoinStart(mapped);
    SplitCapitalize(joined);
    var r := Capitalize(joined);
    assert Split(r)[0] == Capitalize(words[0]) by {
      assert Capitalize(mapped[0]) == Capitalize(words[0]);
    }
    r
  }

  // ----- lemmas -----

  /** The words of a single-spaced title are its lower-cased words, none empty. */
  lemma WordsOfSingleSpaced(title: string)
    requires SingleSpaced(title)
    ensures |Split(LowerStr(title))| == |Split(title)|
    ensures forall i :: 0 <= i < |Split(title)| ==>
              Split(LowerStr(title))[i] == LowerStr(Split(title)[i]) && Split(title)[i] != ""
  {
    SplitLower(title);
    SingleSpacedIffNoEmptyPiece(title);
  }

  /** A join begins with its first word. */
  lemma JoinStart(words: seq<string>)
    requires words != [] && words[0] != ""
    ensures Join(words) != "" && Join(words)[0] == words[0][0]
  {
  }

  /** Capitalising a text that starts with a letter capitalises its first word only. */
  lemma SplitCapitalize(s: string)
    requires s != "" && s[0] != ' '
    ensures Split(s)[0] != ""
    ensures Split(Capitalize(s)) == [Capitalize(Split(s)[0])] + Split(s)[1..]
  {
    var c := Capitalize(s);
    assert c[1..] == s[1..];
  }
}
