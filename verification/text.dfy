/** Title-case normalisation of contact names and companies: splitting on
    single spaces, re-casing each token, joining again with single spaces.
    Case mapping covers the ASCII letters only; every other character is
    left as it is. */
module Text {

  predicate IsLowerLetter(c: char) {
    'a' <= c <= 'z'
  }

  predicate IsUpperLetter(c: char) {
    'A' <= c <= 'Z'
  }

  /** `toUpperCase` of one character. */
  function Upper(c: char): (u: char)
    ensures !IsLowerLetter(u)
    ensures IsLowerLetter(c) ==> IsUpperLetter(u) && u as int == c as int - 32
    ensures !IsLowerLetter(c) ==> u == c
  {
    if IsLowerLetter(c) then (c as int - 32) as char else c
  }

  /** `toLowerCase` of one character. */
  function Lower(c: char): (l: char)
    ensures !IsUpperLetter(l)
    ensures IsUpperLetter(c) ==> IsLowerLetter(l) && l as int == c as int + 32
    ensures !IsUpperLetter(c) ==> l == c
  {
    if IsUpperLetter(c) then (c as int + 32) as char else c
  }

  /** `str.split(' ')`: the maximal space-free pieces between single spaces,
      empty pieces included, and never fewer than one piece. */
  function Split(s: string): (ws: seq<string>)
    ensures |ws| >= 1
    ensures forall i :: 0 <= i < |ws| ==> ' ' !in ws[i]
  {
    if |s| == 0 then [""]
    else
      var rest := Split(s[1..]);
      if s[0] == ' ' then [""] + rest
      else [[s[0]] + rest[0]] + rest[1..]
  }

  /** `words.join(' ')`. */
  function Join(ws: seq<string>): string
    requires |ws| >= 1
  {
    if |ws| == 1 then ws[0] else ws[0] + " " + Join(ws[1..])
  }

  /** `word.charAt(0).toUpperCase() + word.slice(1).toLowerCase()`. */
  function TitleWord(w: string): (r: string)
    ensures |r| == |w|
    ensures |w| > 0 ==> r[0] == Upper(w[0])
    ensures forall i :: 1 <= i < |w| ==> r[i] == Lower(w[i])
  {
    if |w| == 0 then ""
    else [Upper(w[0])] + seq(|w| - 1, i requires 0 <= i < |w| - 1 => Lower(w[i + 1]))
  }

  function TitleWords(ws: seq<string>): (rs: seq<string>)
    ensures |rs| == |ws|
    ensures forall i :: 0 <= i < |ws| ==> rs[i] == TitleWord(ws[i])
  {
    seq(|ws|, i requires 0 <= i < |ws| => TitleWord(ws[i]))
  }

  /** `capitalizeFirstLetter` of backend/server.js: the re-cased tokens of
      the split, joined again. Its result is pinned down character by
      character by `CaseAt`. */
  function CapitalizeFirstLetter(s: string): (r: string)
    ensures TitleCased(s, r)
  {
    JoinSplit(s);
    JoinTitleWords(Split(s));
    Join(TitleWords(Split(s)))
  }

  /** The case a character of `s` takes under title-casing: upper at the
      start of the string and after a space, lower everywhere else. */
  function CaseAt(s: string, i: nat): char
    requires i < |s|
  {
    if i == 0 || s[i - 1] == ' ' then Upper(s[i]) else Lower(s[i])
  }

  /** The characters of the result of title-casing `s`, one by one. */
  ghost predicate TitleCased(s: string, t: string) {
    |t| == |s| && forall i :: 0 <= i < |s| ==> t[i] == CaseAt(s, i)
  }

  lemma JoinConsChar(c: char, w: string, ws: seq<string>)
    ensures Join([[c] + w] + ws) == [c] + Join([w] + ws)
  {
    if |ws| > 0 {
      assert ([[c] + w] + ws)[1..] == ws;
      assert ([w] + ws)[1..] == ws;
    }
  }

  /** Joining the pieces of a split gives back the original string. */
  lemma {:induction false} JoinSplit(s: string)
    ensures Join(Split(s)) == s
  {
    if |s| > 0 {
      var rest := Split(s[1..]);
      JoinSplit(s[1..]);
      if s[0] == ' ' {
        assert ([""] + rest)[1..] == rest;
        assert s == [' '] + s[1..];
      } else {
        JoinConsChar(s[0], rest[0], rest[1..]);
        assert [rest[0]] + rest[1..] == rest;
        assert s == [s[0]] + s[1..];
      }
    }
  }

  lemma {:induction false} SplitSpaceFree(w: string)
    requires ' ' !in w
    ensures Split(w) == [w]
  {
    if |w| > 0 {
      assert ' ' !in w[1..] by {
        forall i | 0 <= i < |w| - 1 ensures w[1..][i] != ' ' {
          assert w[1..][i] == w[i + 1];
        }
      }
      SplitSpaceFree(w[1..]);
      assert w == [w[0]] + w[1..];
    }
  }

  lemma {:induction false} SplitSpaced(w: string, t: string)
    requires ' ' !in w
    ensures Split(w + " " + t) == [w] + Split(t)
  {
    var s := w + " " + t;
    if |w| == 0 {
      assert s[1..] == t;
    } else {
      assert ' ' !in w[1..] by {
        forall i | 0 <= i < |w| - 1 ensures w[1..][i] != ' ' {
          assert w[1..][i] == w[i + 1];
        }
      }
      SplitSpaced(w[1..], t);
      assert s[1..] == w[1..] + " " + t;
      assert w == [w[0]] + w[1..];
    }
  }

  /** Splitting a join of space-free pieces gives back the pieces. */
  lemma {:induction false} SplitJoin(ws: seq<string>)
    requires |ws| >= 1
    requires forall i :: 0 <= i < |ws| ==> ' ' !in ws[i]
    ensures Split(Join(ws)) == ws
  {
    if |ws| == 1 {
      SplitSpaceFree(ws[0]);
    } else {
      SplitJoin(ws[1..]);
      SplitSpaced(ws[0], Join(ws[1..]));
      assert [ws[0]] + ws[1..] == ws;
    }
  }

  /** Title-casing the words of a join, character by character. */
  lemma {:induction false} JoinTitleWords(ws: seq<string>)
    requires |ws| >= 1
    requires forall i :: 0 <= i < |ws| ==> ' ' !in ws[i]
    ensures TitleCased(Join(ws), Join(TitleWords(ws)))
  {
    var w := ws[0];
    var tw := TitleWord(w);
    var j := Join(ws);
    var m := Join(TitleWords(ws));
    assert TitleWords(ws)[0] == tw;
    if |ws| == 1 {
      forall i | 0 <= i < |j| ensures m[i] == CaseAt(j, i) {
        if i > 0 {
          assert w[i - 1] in w;
        }
      }
    } else {
      var j' := Join(ws[1..]);
      var m' := Join(TitleWords(ws[1..]));
      JoinTitleWords(ws[1..]);
      assert TitleWords(ws)[1..] == TitleWords(ws[1..]);
      assert j == w + " " + j';
      assert m == tw + " " + m';
      forall i | 0 <= i < |j| ensures m[i] == CaseAt(j, i) {
        if i < |w| {
          if i > 0 {
            assert w[i - 1] in w;
          }
        } else if i > |w| {
          var k := i - |w| - 1;
          assert m[i] == m'[k] && j[i] == j'[k];
          if k > 0 {
            assert j[i - 1] == j'[k - 1];
          }
        }
      }
    }
  }

  /** Title-casing, character by character: the length is kept, and each
      character becomes upper case at the start of the string or after a
      space and lower case everywhere else; in particular a space stays a
      space and nothing else becomes one. */
  lemma CapitalizeFirstLetterPointwise(s: string)
    ensures |CapitalizeFirstLetter(s)| == |s|
    ensures forall i :: 0 <= i < |s| ==> CapitalizeFirstLetter(s)[i] == CaseAt(s, i)
    ensures forall i :: 0 <= i < |s| ==> (CapitalizeFirstLetter(s)[i] == ' ' <==> s[i] == ' ')
  {
    JoinSplit(s);
    JoinTitleWords(Split(s));
  }

  lemma TitleWordSpaceFree(w: string)
    requires ' ' !in w
    ensures ' ' !in TitleWord(w)
  {
    var r := TitleWord(w);
    forall i | 0 <= i < |r| ensures r[i] != ' ' {
      assert w[i] in w;
    }
  }

  /** The tokens of the normalised string are the tokens of the original,
      each title-cased: the number of tokens is kept. */
  lemma CapitalizeFirstLetterTokens(s: string)
    ensures Split(CapitalizeFirstLetter(s)) == TitleWords(Split(s))
    ensures |Split(CapitalizeFirstLetter(s))| == |Split(s)|
  {
    var ws := TitleWords(Split(s));
    forall i | 0 <= i < |ws| ensures ' ' !in ws[i] {
      TitleWordSpaceFree(Split(s)[i]);
    }
    SplitJoin(ws);
  }

  /** Every non-empty token of the result starts with a character that is
      not a lower-case letter and has no upper-case letter after it. */
  lemma CapitalizeFirstLetterTokenShape(s: string)
    ensures forall w :: w in Split(CapitalizeFirstLetter(s)) && |w| > 0 ==>
      !IsLowerLetter(w[0]) && forall i :: 1 <= i < |w| ==> !IsUpperLetter(w[i])
  {
    CapitalizeFirstLetterTokens(s);
  }

  /** Normalising a normalised string changes nothing. */
  lemma CapitalizeFirstLetterIdempotent(s: string)
    ensures CapitalizeFirstLetter(CapitalizeFirstLetter(s)) == CapitalizeFirstLetter(s)
  {
    var t := CapitalizeFirstLetter(s);
    var u := CapitalizeFirstLetter(t);
    CapitalizeFirstLetterPointwise(s);
    CapitalizeFirstLetterPointwise(t);
    forall i | 0 <= i < |t| ensures u[i] == t[i] {
      if i > 0 {
        assert t[i - 1] == ' ' <==> s[i - 1] == ' ';
      }
    }
  }

  /** A string whose characters are those title-casing prescribes is the
      normalisation. */
  lemma CapitalizeFirstLetterFromCases(s: string, t: string)
    requires TitleCased(s, t)
    ensures CapitalizeFirstLetter(s) == t
  {
    CapitalizeFirstLetterPointwise(s);
  }

  /** Title-casing a string whose only space is at index `sp`, character
      by character. */
  lemma OneSpaceCases(s: string, t: string, sp: nat)
    requires |s| == |t| && sp < |s| && s[sp] == ' '
    requires forall i :: 0 <= i < |s| && i != sp ==> s[i] != ' '
    requires forall i :: 0 <= i < |s| ==> t[i] == if i == 0 || i == sp + 1 then Upper(s[i]) else Lower(s[i])
    ensures CapitalizeFirstLetter(s) == t
  {
    forall i | 0 <= i < |s| ensures t[i] == CaseAt(s, i) {
      if i > 0 { assert s[i - 1] == ' ' <==> i == sp + 1; }
    }
    CapitalizeFirstLetterFromCases(s, t);
  }

  /** The normalisation of the example contact's name. */
  lemma NameExample()
    ensures CapitalizeFirstLetter("john doe") == "John Doe"
  {
    var s, t := "john doe", "John Doe";
    forall i | 0 <= i < |s| ensures t[i] == if i == 0 || i == 5 then Upper(s[i]) else Lower(s[i]) {
      if i == 0 || i == 5 {
        assert t[i] == Upper(s[i]);
      } else {
        assert t[i] == Lower(s[i]);
      }
    }
    OneSpaceCases(s, t, 4);
  }

  /** The normalisation of the example contact's company. */
  lemma CompanyExample()
    ensures CapitalizeFirstLetter("acme corp") == "Acme Corp"
  {
    var s, t := "acme corp", "Acme Corp";
    forall i | 0 <= i < |s| ensures t[i] == if i == 0 || i == 5 then Upper(s[i]) else Lower(s[i]) {
      if i == 0 || i == 5 {
        assert t[i] == Upper(s[i]);
      } else {
        assert t[i] == Lower(s[i]);
      }
    }
    OneSpaceCases(s, t, 4);
  }
}
