/** getInitials, the avatar helper of the front end: the name is split on
    single spaces, the first character of each piece is kept, the result is
    upper-cased and cut to two characters. */
module Initials {
  import opened Base

  /** `split(' ')`: the pieces between single spaces, empty ones included. */
  function Split(s: string): (r: seq<string>)
    ensures |r| >= 1
  {
    if s == [] then [""]
    else
      var rest := Split(s[1..]);
      if s[0] == ' ' then [""] + rest else [[s[0]] + rest[0]] + rest[1..]
  }

  /** `join(' ')`. */
  function Join(pieces: seq<string>): (r: string)
  {
    if |pieces| == 0 then ""
    else if |pieces| == 1 then pieces[0]
    else pieces[0] + " " + Join(pieces[1..])
  }

  /** Splitting and joining back on the same separator gives the string back. */
  lemma {:induction false} JoinSplit(s: string)
    ensures Join(Split(s)) == s
  {
    if s != [] {
      var rest := Split(s[1..]);
      JoinSplit(s[1..]);
      if s[0] == ' ' {
        assert ([""] + rest)[1..] == rest;
      } else {
        var pieces := [[s[0]] + rest[0]] + rest[1..];
        if |rest| == 1 {
          assert pieces == [[s[0]] + rest[0]];
        } else {
          assert pieces[1..] == rest[1..];
          assert Join(rest) == rest[0] + " " + Join(rest[1..]);
        }
      }
    }
  }

  /** No piece holds a space. */
  lemma {:induction false} SplitPiecesHaveNoSpace(s: string)
    ensures forall i, j :: 0 <= i < |Split(s)| && 0 <= j < |Split(s)[i]| ==> Split(s)[i][j] != ' '
  {
    if s != [] {
      SplitPiecesHaveNoSpace(s[1..]);
    }
  }

  /** `.map((n) => n[0]).join('')`: the first character of every piece; an
      empty piece gives undefined, which join writes as nothing. */
  function FirstChars(pieces: seq<string>): (r: string)
    ensures |r| <= |pieces|
  {
    if pieces == [] then ""
    else (if pieces[0] == "" then "" else [pieces[0][0]]) + FirstChars(pieces[1..])
  }

  /** getInitials. */
  function GetInitials(name: string): (r: string)
    ensures |r| <= 2
    ensures forall i :: 0 <= i < |r| ==> !IsLowerAscii(r[i])
  {
    var u := Upper(FirstChars(Split(name)));
    if |u| <= 2 then u else u[..2]
  }

  /** The characters that begin a word: not a space, and at the start or after
      a space (`atStart` says whether the previous character was a space). */
  function WordStarts(s: string, atStart: bool): (r: string)
    ensures |r| <= |s|
  {
    if s == [] then ""
    else if s[0] == ' ' then WordStarts(s[1..], true)
    else (if atStart then [s[0]] else "") + WordStarts(s[1..], false)
  }

  lemma {:induction false} FirstCharsAreWordStarts(s: string)
    ensures FirstChars(Split(s)) == WordStarts(s, true)
    ensures FirstChars(Split(s)[1..]) == WordStarts(s, false)
  {
    if s != [] {
      var rest := Split(s[1..]);
      FirstCharsAreWordStarts(s[1..]);
      if s[0] == ' ' {
        assert ([""] + rest)[1..] == rest;
      } else {
        var pieces := [[s[0]] + rest[0]] + rest[1..];
        assert pieces[1..] == rest[1..];
      }
    }
  }

  /** The initials are the first two word starts, upper-cased: runs of spaces
      and leading or trailing spaces add nothing. */
  lemma InitialsAreWordStarts(name: string)
    ensures var w := Upper(WordStarts(name, true));
      GetInitials(name) == if |w| <= 2 then w else w[..2]
  {
    FirstCharsAreWordStarts(name);
  }

  lemma InitialsOfThreeWords()
    ensures GetInitials("Jo Ann Li") == "JA"
  {
    assert WordStarts("Jo Ann Li", true) == "JAL" by {
      assert WordStarts(" Li", false) == "L" by {
        assert WordStarts("Li", true) == "L";
      }
      assert WordStarts("Ann Li", true) == "AL" by {
        assert WordStarts("nn Li", false) == "L";
      }
      assert WordStarts("o Ann Li", false) == "AL" by {
        assert WordStarts(" Ann Li", false) == "AL";
      }
    }
    assert Upper("JAL") == "JAL";
    InitialsAreWordStarts("Jo Ann Li");
  }

  lemma InitialsSkipSpaces()
    ensures GetInitials(" x  y") == "XY"
  {
    assert WordStarts(" x  y", true) == "xy" by {
      assert WordStarts("  y", false) == "y" by {
        assert WordStarts(" y", true) == "y";
      }
    }
    assert Upper("xy") == "XY";
    InitialsAreWordStarts(" x  y");
  }
}
