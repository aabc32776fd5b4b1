/** logging.Sanitize on ASCII text: control characters become spaces, runs of
    spaces collapse, and the result is truncated. */
module Sanitizing {
  import opened Strings

  const MAX_SANITIZED_LENGTH: nat := 200
  const REDACTION := "...(redacted)"

  predicate Ascii(s: string) {
    forall i :: 0 <= i < |s| ==> s[i] < 128 as char
  }

  /** unicode.IsControl within ASCII. */
  predicate IsControl(c: char) {
    c < ' ' || c == 127 as char
  }

  function Blanked(s: string): (r: string)
    ensures |r| == |s|
    ensures forall i :: 0 <= i < |s| ==> r[i] == if IsControl(s[i]) then ' ' else s[i]
  {
    seq(|s|, i requires 0 <= i < |s| => if IsControl(s[i]) then ' ' else s[i])
  }

  /** The length of the first word. */
  function WordLength(s: string): (n: nat)
    ensures n <= |s| && ' ' !in s[..n]
    ensures n < |s| ==> s[n] == ' '
  {
    if s == "" || s[0] == ' ' then 0
    else
      var n := WordLength(s[1..]);
      assert s[..n + 1] == [s[0]] + s[1..][..n];
      n + 1
  }

  /** strings.Fields where the only white space is the space itself. */
  function Fields(s: string): (words: seq<string>)
    ensures forall w :: w in words ==> w != "" && ' ' !in w
    decreases |s|
  {
    if s == "" then []
    else if s[0] == ' ' then Fields(s[1..])
    else
      var n := WordLength(s);
      [s[..n]] + Fields(s[n..])
  }

  function Collapsed(s: string): string {
    Join(Fields(Blanked(s)), ' ')
  }

  function Sanitize(message: string): string {
    var cleaned := Collapsed(message);
    if |cleaned| > MAX_SANITIZED_LENGTH then cleaned[..MAX_SANITIZED_LENGTH - |REDACTION|] + REDACTION else cleaned
  }

  /** Printable text: no control character, no space at either end, no two spaces
      in a row. */
  predicate Neat(s: string) {
    && (forall i :: 0 <= i < |s| ==> !IsControl(s[i]))
    && (s != "" ==> s[0] != ' ' && s[|s| - 1] != ' ')
    && (forall i :: 0 <= i < |s| - 1 ==> !(s[i] == ' ' && s[i + 1] == ' '))
  }

  lemma {:induction false} FieldsOfWords(words: seq<string>)
    requires forall w :: w in words ==> w != "" && ' ' !in w
    ensures Fields(Join(words, ' ')) == words
  {
    if words != [] {
      var w := words[0];
      assert w in words;
      var rest := if |words| == 1 then "" else [' '] + Join(words[1..], ' ');
      assert Join(words, ' ') == w + rest;
      FirstWord(w, rest);
      if |words| > 1 {
        assert forall x :: x in words[1..] ==> x in words;
        FieldsOfWords(words[1..]);
        assert rest[1..] == Join(words[1..], ' ');
      }
      assert words == [w] + words[1..];
    }
  }

  lemma {:induction false} WordLengthOf(w: string, rest: string)
    requires ' ' !in w && (rest != "" ==> rest[0] == ' ')
    ensures WordLength(w + rest) == |w|
  {
    if w == "" {
      assert w + rest == rest;
    } else {
      assert w[0] in w && (w + rest)[1..] == w[1..] + rest;
      WordLengthOf(w[1..], rest);
    }
  }

  lemma FirstWord(w: string, rest: string)
    requires w != "" && ' ' !in w && (rest != "" ==> rest[0] == ' ')
    ensures Fields(w + rest) == [w] + Fields(rest)
  {
    var s := w + rest;
    WordLengthOf(w, rest);
    assert s[..|w|] == w && s[|w|..] == rest;
    assert w[0] in w;
  }

  lemma {:induction false} JoinIsNeat(words: seq<string>)
    requires forall w :: w in words ==> w != "" && ' ' !in w && forall i :: 0 <= i < |w| ==> !IsControl(w[i])
    ensures Neat(Join(words, ' '))
    ensures words != [] ==> Join(words, ' ') != ""
  {
    if words != [] {
      var w := words[0];
      assert w in words && w[0] in w && w[|w| - 1] in w;
      forall i | 0 <= i < |w| ensures w[i] != ' ' {
        assert w[i] in w;
      }
      if |words| > 1 {
        JoinIsNeat(words[1..]);
      }
    }
  }

  lemma {:induction false} FieldsKeepCharacters(s: string)
    requires forall i :: 0 <= i < |s| ==> !IsControl(s[i])
    ensures forall w :: w in Fields(s) ==> forall i :: 0 <= i < |w| ==> !IsControl(w[i])
    decreases |s|
  {
    if s != "" {
      if s[0] == ' ' {
        FieldsKeepCharacters(s[1..]);
      } else {
        FieldsKeepCharacters(s[WordLength(s)..]);
      }
    }
  }

  lemma {:induction false} NeatIsFixed(s: string)
    requires Neat(s)
    ensures Join(Fields(s), ' ') == s
    decreases |s|
  {
    if s != "" {
      var n := WordLength(s);
      if n < |s| {
        assert s[n] == ' ';
        var tail := s[n + 1..];
        assert s == s[..n] + [' '] + tail;
        NeatIsFixed(tail);
        assert s[n..][1..] == tail;
        assert Fields(s) == [s[..n]] + Fields(tail);
        assert tail != "" && Fields(tail) != [] by {
          assert s[|s| - 1] == tail[|tail| - 1];
        }
      } else {
        assert s[n..] == "" && s[..n] == s;
      }
    }
  }

  lemma CollapsedIsNeat(message: string)
    ensures Neat(Collapsed(message)) && Fields(Collapsed(message)) == Fields(Blanked(message))
  {
    FieldsKeepCharacters(Blanked(message));
    JoinIsNeat(Fields(Blanked(message)));
    FieldsOfWords(Fields(Blanked(message)));
  }

  /** A neat text cut anywhere stays neat in front of the redaction mark, which
      begins and ends with a printable character other than a space. */
  lemma TruncatedIsNeat(s: string, n: nat)
    requires Neat(s) && n <= |s|
    ensures Neat(s[..n] + REDACTION)
  {
    var mark := REDACTION;
    assert |mark| == 13 && mark[0] == '.' && mark[12] == ')' && ' ' !in mark;
    var t := s[..n] + mark;
    assert t[0] == if n > 0 then s[0] else '.';
    forall i | 0 <= i < |t| ensures !IsControl(t[i]) {
      assert t[i] == if i < n then s[i] else mark[i - n];
    }
    forall i | 0 <= i < |t| - 1 ensures !(t[i] == ' ' && t[i + 1] == ' ') {
      if i + 1 < n {
        assert t[i] == s[i] && t[i + 1] == s[i + 1];
      } else {
        assert t[i + 1] == mark[i + 1 - n];
      }
    }
  }

  lemma NeatIsCollapsed(s: string)
    requires Neat(s)
    ensures Collapsed(s) == s
  {
    assert Blanked(s) == s;
    NeatIsFixed(s);
  }

  /** A space or an ASCII control character. */
  predicate IsBlank(c: char) {
    c <= ' ' || c == 127 as char
  }

  /** Reading a message once from left to right: blanks are dropped, and a run of them
      between two other characters leaves one space. `gap` says that something came
      before, with blanks in between. */
  function ReadOnce(s: string, begun: bool, gap: bool): string {
    if s == "" then ""
    else if IsBlank(s[0]) then ReadOnce(s[1..], begun, true)
    else (if begun && gap then " " else "") + [s[0]] + ReadOnce(s[1..], true, false)
  }

  lemma {:induction false} ReadBlanked(s: string, begun: bool, gap: bool)
    ensures ReadOnce(Blanked(s), begun, gap) == ReadOnce(s, begun, gap)
  {
    if s != "" {
      assert Blanked(s)[1..] == Blanked(s[1..]);
      ReadBlanked(s[1..], if IsBlank(s[0]) then begun else true, IsBlank(s[0]));
    }
  }

  /** A word is read as it stands. */
  lemma {:induction false} ReadWord(w: string, rest: string)
    requires ' ' !in w && (forall i :: 0 <= i < |w| ==> !IsControl(w[i]))
    ensures ReadOnce(w + rest, true, false) == w + ReadOnce(rest, true, false)
  {
    if w == "" {
      assert w + rest == rest;
    } else {
      assert w[0] in w && (w + rest)[1..] == w[1..] + rest;
      ReadWord(w[1..], rest);
      assert w == [w[0]] + w[1..];
    }
  }

  /** In front of a word, reading leaves one space if something came before. */
  lemma ReadLead(s: string, begun: bool, gap: bool)
    requires s != "" && !IsBlank(s[0])
    ensures ReadOnce(s, begun, gap) == (if begun && gap then " " else "") + ReadOnce(s, true, false)
  {
    var more := ReadOnce(s[1..], true, false);
    assert " " + [s[0]] + more == " " + ([s[0]] + more);
    assert "" + [s[0]] + more == [s[0]] + more;
  }

  /** From the start of a word on, reading once gives the word and then the rest. */
  lemma ReadFirstWord(s: string)
    requires s != "" && s[0] != ' ' && forall i :: 0 <= i < |s| ==> !IsControl(s[i])
    ensures var n := WordLength(s);
            n > 0 && ReadOnce(s, true, false) == s[..n] + ReadOnce(s[n..], true, false)
  {
    ReadUpTo(s, WordLength(s));
  }

  lemma ReadUpTo(s: string, n: nat)
    requires n <= |s| && ' ' !in s[..n] && forall i :: 0 <= i < |s| ==> !IsControl(s[i])
    ensures ReadOnce(s, true, false) == s[..n] + ReadOnce(s[n..], true, false)
  {
    ReadWord(s[..n], s[n..]);
    assert s[..n] + s[n..] == s;
  }

  /** Splitting into words and joining them with single spaces is reading once. */
  lemma {:induction false} JoinedIsRead(s: string, begun: bool)
    requires forall i :: 0 <= i < |s| ==> !IsControl(s[i])
    ensures ReadOnce(s, begun, true) == (if begun && Fields(s) != [] then " " else "") + Join(Fields(s), ' ')
    decreases |s|
  {
    if s != "" {
      if s[0] == ' ' {
        JoinedIsRead(s[1..], begun);
      } else {
        var n := WordLength(s);
        ReadLead(s, begun, true);
        ReadFirstWord(s);
        var rest := s[n..];
        JoinedIsRead(rest, true);
        ReadAfterWord(rest);
        JoinFirst(s[..n], Fields(rest));
      }
    }
  }

  /** A word ends where a space or nothing follows. */
  lemma ReadAfterWord(rest: string)
    requires rest != "" ==> rest[0] == ' '
    ensures ReadOnce(rest, true, false) == ReadOnce(rest, true, true)
  {
  }

  lemma JoinFirst(w: string, words: seq<string>)
    ensures Join([w] + words, ' ') == w + ((if words != [] then " " else "") + Join(words, ' '))
  {
    assert ([w] + words)[1..] == words;
  }

  /** A sanitised message is the message read once; one of more than 200 characters
      keeps the first 187 of them, followed by the redaction mark. */
  lemma SanitizeReadsOnce(message: string)
    requires Ascii(message)
    ensures var read := ReadOnce(message, false, false);
            Sanitize(message) == if |read| <= 200 then read else read[..187] + "...(redacted)"
  {
    ReadBlanked(message, false, true);
    JoinedIsRead(Blanked(message), false);
    assert "" + Collapsed(message) == Collapsed(message);
    GapIsFree(message);
    assert |REDACTION| == 13;
  }

  lemma {:induction false} GapIsFree(s: string)
    ensures ReadOnce(s, false, true) == ReadOnce(s, false, false)
  {
  }

  /** A sanitised message is short, printable and stable: sanitising it again
      changes nothing. One that fits keeps its words. */
  lemma SanitizeIsStable(message: string)
    requires Ascii(message)
    ensures var clean := Sanitize(message);
            && |clean| <= 200 && Neat(clean)
            && Sanitize(clean) == clean
            && (|Collapsed(message)| <= MAX_SANITIZED_LENGTH ==> Fields(clean) == Fields(Blanked(message)))
  {
    CollapsedIsNeat(message);
    if |Collapsed(message)| > MAX_SANITIZED_LENGTH {
      TruncatedIsNeat(Collapsed(message), MAX_SANITIZED_LENGTH - |REDACTION|);
    }
    NeatIsCollapsed(Sanitize(message));
  }
}
