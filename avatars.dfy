/** The avatar a team member gets when saved:
    `name.split(' ').map(n => n[0]).join('').toUpperCase().substring(0, 2)`. */
module Avatars {

  /** JavaScript `s.split(sep)` for a one-character separator: one token more
      than there are separators, empty tokens included. */
  function Split(s: string, sep: char): (tokens: seq<string>)
    ensures |tokens| >= 1
    ensures forall i :: 0 <= i < |tokens| ==> sep !in tokens[i]
  {
    if s == [] then [[]]
    else
      var rest := Split(s[1..], sep);
      if s[0] == sep then [[]] + rest else [[s[0]] + rest[0]] + rest[1..]
  }

  /** `tokens.join(sep)`. */
  function Join(tokens: seq<string>, sep: char): string
  {
    if tokens == [] then []
    else if |tokens| == 1 then tokens[0]
    else tokens[0] + [sep] + Join(tokens[1..], sep)
  }

  /** Splitting loses nothing: joining the tokens back gives the input. */
  lemma {:induction false} JoinSplit(s: string, sep: char)
    ensures Join(Split(s, sep), sep) == s
  {
    if s != [] {
      var rest := Split(s[1..], sep);
      JoinSplit(s[1..], sep);
      if s[0] == sep {
        assert Split(s, sep)[1..] == rest;
      } else if |rest| == 1 {
        assert Join(Split(s, sep), sep) == [s[0]] + rest[0];
      } else {
        var t := Split(s, sep);
        assert t[1..] == rest[1..];
        calc {
          Join(t, sep);
          ([s[0]] + rest[0]) + [sep] + Join(rest[1..], sep);
          [s[0]] + (rest[0] + [sep] + Join(rest[1..], sep));
          [s[0]] + Join(rest, sep);
          [s[0]] + s[1..];
        }
      }
    }
  }

  /** `tokens.map(n => n[0]).join('')`: the first character of each token; an
      empty token gives `undefined`, which `join` renders as nothing. */
  function Initials(tokens: seq<string>): string
  {
    if tokens == [] then []
    else (if tokens[0] == [] then [] else [tokens[0][0]]) + Initials(tokens[1..])
  }

  /** Reference reading of the initials, by a scan of the characters: every
      non-blank character that opens the name or follows a blank. */
  function WordStarts(s: string, atStart: bool): (r: string)
    ensures |r| <= |s|
  {
    if s == [] then []
    else if s[0] == ' ' then WordStarts(s[1..], true)
    else (if atStart then [s[0]] else []) + WordStarts(s[1..], false)
  }

  /** No initial is a blank. */
  lemma {:induction false} WordStartsNoBlank(s: string, atStart: bool)
    ensures ' ' !in WordStarts(s, atStart)
  {
    if s != [] {
      WordStartsNoBlank(s[1..], true);
      WordStartsNoBlank(s[1..], false);
    }
  }

  /** The split-map-join pipeline picks exactly the word starts of the name;
      for `atStart == false` the first token is the tail of a word already begun. */
  lemma {:induction false} InitialsAreWordStarts(s: string, atStart: bool)
    ensures atStart ==> Initials(Split(s, ' ')) == WordStarts(s, true)
    ensures !atStart ==> Initials(Split(s, ' ')[1..]) == WordStarts(s, false)
  {
    if s != [] {
      var rest := Split(s[1..], ' ');
      InitialsAreWordStarts(s[1..], true);
      InitialsAreWordStarts(s[1..], false);
      if s[0] == ' ' {
        assert Split(s, ' ') == [[]] + rest;
        assert Split(s, ' ')[1..] == rest;
      } else {
        var t := Split(s, ' ');
        assert t[0] == [s[0]] + rest[0] && t[1..] == rest[1..];
      }
    }
  }

  /** The name has no word start exactly when it is made of blanks only. */
  lemma {:induction false} WordStartsEmpty(s: string)
    ensures WordStarts(s, true) == [] <==> forall i :: 0 <= i < |s| ==> s[i] == ' '
  {
    if s != [] {
      WordStartsEmpty(s[1..]);
      if s[0] == ' ' {
        assert forall i :: 1 <= i < |s| ==> s[i] == s[1..][i - 1];
      }
    }
  }

  predicate IsLower(c: char) { 'a' <= c <= 'z' }

  /** `toUpperCase` on one character, for the ASCII letters. */
  function UpperChar(c: char): (u: char)
    ensures !IsLower(u)
    ensures !IsLower(c) ==> u == c
    ensures IsLower(c) ==> 'A' <= u <= 'Z' && u as int - 'A' as int == c as int - 'a' as int
  {
    if IsLower(c) then (c as int - 32) as char else c
  }

  /** `toUpperCase`: the same length, no lower-case letter left, every other character kept. */
  function Upper(s: string): (r: string)
    ensures |r| == |s|
    ensures forall i :: 0 <= i < |s| ==> r[i] == UpperChar(s[i])
  {
    if s == [] then [] else [UpperChar(s[0])] + Upper(s[1..])
  }

  /** `substring(0, n)`. */
  function Prefix(s: string, n: nat): (r: string)
  {
    if |s| <= n then s else s[..n]
  }

  /** The avatar of a member named `name`: at most two upper-cased word initials. */
  function Avatar(name: string): (a: string)
    ensures |a| <= 2
    ensures a == Prefix(Upper(WordStarts(name, true)), 2)
    ensures forall i :: 0 <= i < |a| ==> a[i] != ' ' && !IsLower(a[i])
  {
    InitialsAreWordStarts(name, true);
    WordStartsNoBlank(name, true);
    Prefix(Upper(Initials(Split(name, ' '))), 2)
  }

  /** The avatar is empty exactly when the name holds nothing but blanks. */
  lemma AvatarEmpty(name: string)
    ensures Avatar(name) == [] <==> forall i :: 0 <= i < |name| ==> name[i] == ' '
  {
    WordStartsEmpty(name);
  }

  /** Inside a word no initial is taken, up to the blank that closes it. */
  lemma {:induction false} WordInterior(w: string, t: string)
    requires ' ' !in w
    ensures WordStarts(w, false) == []
    ensures WordStarts(w + [' '] + t, false) == WordStarts(t, true)
  {
    if w != [] {
      WordInterior(w[1..], t);
      assert (w + [' '] + t)[1..] == w[1..] + [' '] + t;
    }
  }

  /** A word on its own contributes its first character. */
  lemma LastWord(w: string)
    requires w != [] && ' ' !in w
    ensures WordStarts(w, true) == [w[0]]
  {
    WordInterior(w[1..], []);
  }

  /** A leading word contributes its first character, and the scan resumes after its blank. */
  lemma LeadingWord(w: string, t: string)
    requires w != [] && ' ' !in w
    ensures WordStarts(w + [' '] + t, true) == [w[0]] + WordStarts(t, true)
  {
    WordInterior(w[1..], t);
    assert (w + [' '] + t)[1..] == w[1..] + [' '] + t;
  }

  /** Upper-casing a string without lower-case letters changes nothing. */
  lemma UpperKeeps(s: string)
    requires forall i :: 0 <= i < |s| ==> !IsLower(s[i])
    ensures Upper(s) == s
  {
  }

  /** A name of three blank-separated words has the three word starts. */
  lemma ThreeWords(a: string, b: string, c: string)
    requires a != [] && ' ' !in a && b != [] && ' ' !in b && c != [] && ' ' !in c
    ensures WordStarts(a + [' '] + b + [' '] + c, true) == [a[0]] + ([b[0]] + [c[0]])
  {
    var tail := b + [' '] + c;
    calc {
      WordStarts(a + [' '] + b + [' '] + c, true);
      { assert a + [' '] + b + [' '] + c == a + [' '] + tail; }
      WordStarts(a + [' '] + tail, true);
      { LeadingWord(a, tail); }
      [a[0]] + WordStarts(tail, true);
      { LeadingWord(b, c); }
      [a[0]] + ([b[0]] + WordStarts(c, true));
      { LastWord(c); }
      [a[0]] + ([b[0]] + [c[0]]);
    }
  }

  lemma AvatarOfTwoWords(name: string)
    requires name == "Sarah Connor"
    ensures Avatar(name) == "SC"
  {
    assert name == "Sarah" + [' '] + "Connor";
    LeadingWord("Sarah", "Connor");
    LastWord("Connor");
    UpperKeeps("SC");
  }

  lemma AvatarOfThreeWords(name: string)
    requires name == "Harold James Finch"
    ensures Avatar(name) == "HJ"
  {
    assert name == "Harold" + [' '] + "James" + [' '] + "Finch";
    ThreeWords("Harold", "James", "Finch");
    UpperKeeps("HJF");
    assert Prefix("HJF", 2) == "HJ";
  }

  lemma AvatarUpperCases(name: string)
    requires name == "sameen shaw"
    ensures Avatar(name) == "SS"
  {
    assert name == "sameen" + [' '] + "shaw";
    LeadingWord("sameen", "shaw");
    LastWord("shaw");
    assert Upper("ss") == "SS" by {
      assert UpperChar('s') == 'S';
    }
  }
}
