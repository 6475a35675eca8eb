/**
 * The tokenisation shared by the validator and the calculator: every parenthesis is
 * padded with spaces (`replace("(", " ( ").replace(")", " ) ")`) and the result is split
 * by a `java.util.Scanner`, whose default delimiter is a run of Java whitespace.
 */
module Tokenizer {

  /** `Character.isWhitespace`: the Unicode space separators other than the no-break
      spaces, the line and paragraph separators, and the controls 0x09-0x0D and 0x1C-0x1F. */
  predicate IsJavaWhitespace(c: char) {
    || c == ' '
    || ('\t' <= c <= '\r')
    || ('\U{1C}' <= c <= '\U{1F}')
    || c == '\U{1680}'
    || ('\U{2000}' <= c <= '\U{2006}')
    || ('\U{2008}' <= c <= '\U{200A}')
    || c == '\U{2028}' || c == '\U{2029}' || c == '\U{205F}' || c == '\U{3000}'
  }

  /** `String.isBlank`: empty or only whitespace. */
  predicate IsBlank(s: string) {
    forall i :: 0 <= i < |s| ==> IsJavaWhitespace(s[i])
  }

  /** Surrounds every parenthesis with one space on each side. The source replaces `(`
      first and `)` second; the first pass adds no `)`, so one pass per character is the same. */
  function Pad(s: string): (p: string)
    ensures forall i :: 0 <= i < |p| && (p[i] == '(' || p[i] == ')') ==>
              0 < i < |p| - 1 && p[i - 1] == ' ' && p[i + 1] == ' '
  {
    if s == [] then []
    else
      var head := if s[0] == '(' then " ( " else if s[0] == ')' then " ) " else [s[0]];
      var rest := Pad(s[1..]);
      assert forall i :: 0 <= i < |rest| ==> (head + rest)[|head| + i] == rest[i];
      head + rest
  }

  /** The longest prefix of `s` free of whitespace. */
  function Word(s: string): (w: string)
    ensures |w| <= |s| && w == s[..|w|]
    ensures forall i :: 0 <= i < |w| ==> !IsJavaWhitespace(w[i])
    ensures |w| < |s| ==> IsJavaWhitespace(s[|w|])
  {
    if s == [] || IsJavaWhitespace(s[0]) then [] else [s[0]] + Word(s[1..])
  }

  /** The tokens `Scanner.next()` returns one after the other. */
  function Scan(s: string): (ts: seq<string>)
    ensures forall k :: 0 <= k < |ts| ==> |ts[k]| > 0
    ensures forall k, i :: 0 <= k < |ts| && 0 <= i < |ts[k]| ==> !IsJavaWhitespace(ts[k][i])
    decreases |s|
  {
    if s == [] then []
    else if IsJavaWhitespace(s[0]) then Scan(s[1..])
    else
      var w := Word(s);
      [w] + Scan(s[|w|..])
  }

  function Tokenize(expression: string): seq<string> {
    Scan(Pad(expression))
  }

  predicate IsParenthesis(c: char) {
    c == '(' || c == ')'
  }

  /** Every parenthesis is followed by whitespace and is at the start or preceded by whitespace. */
  predicate ParenthesesSpaced(s: string) {
    forall i :: 0 <= i < |s| && IsParenthesis(s[i]) ==>
      (i == 0 || IsJavaWhitespace(s[i - 1])) && i + 1 < |s| && IsJavaWhitespace(s[i + 1])
  }

  lemma WordIsolatesParentheses(s: string)
    requires ParenthesesSpaced(s)
    ensures forall i :: 0 <= i < |Word(s)| && IsParenthesis(Word(s)[i]) ==> i == 0 && |Word(s)| == 1
  {
    var w := Word(s);
    assert forall j :: 0 <= j < |w| ==> s[j] == w[j];
  }

  lemma {:induction false} ScanIsolatesParentheses(s: string)
    requires ParenthesesSpaced(s)
    ensures forall k, i :: 0 <= k < |Scan(s)| && 0 <= i < |Scan(s)[k]| && IsParenthesis(Scan(s)[k][i]) ==>
              Scan(s)[k] == [Scan(s)[k][i]]
    decreases |s|
  {
    if s == [] {
    } else if IsJavaWhitespace(s[0]) {
      ScanIsolatesParentheses(s[1..]);
    } else {
      var w := Word(s);
      var rest := s[|w|..];
      assert ParenthesesSpaced(rest) by {
        forall i | 0 <= i < |rest| && IsParenthesis(rest[i])
          ensures (i == 0 || IsJavaWhitespace(rest[i - 1])) && i + 1 < |rest| && IsJavaWhitespace(rest[i + 1])
        {
          assert rest[i] == s[|w| + i];
        }
      }
      ScanIsolatesParentheses(rest);
      WordIsolatesParentheses(s);
    }
  }

  /** After padding, a parenthesis is always a token of its own: `(` and `)` never stick to a neighbour. */
  lemma TokenizeIsolatesParentheses(expression: string)
    ensures forall k, i ::
              0 <= k < |Tokenize(expression)| && 0 <= i < |Tokenize(expression)[k]| && IsParenthesis(Tokenize(expression)[k][i])
              ==> Tokenize(expression)[k] in ["(", ")"]
  {
    ScanIsolatesParentheses(Pad(expression));
  }

  /** Padding works character by character, so it distributes over concatenation. */
  lemma {:induction false} PadAppend(a: string, b: string)
    ensures Pad(a + b) == Pad(a) + Pad(b)
    decreases |a|
  {
    if a == [] {
      assert a + b == b;
    } else {
      assert (a + b)[0] == a[0] && (a + b)[1..] == a[1..] + b;
      PadAppend(a[1..], b);
    }
  }

  /** A string without parentheses is left as it is. */
  lemma {:induction false} PadWithoutParentheses(s: string)
    requires forall i :: 0 <= i < |s| ==> !IsParenthesis(s[i])
    ensures Pad(s) == s
    decreases |s|
  {
    if s != [] {
      PadWithoutParentheses(s[1..]);
    }
  }

  /** A word runs up to the first whitespace. */
  lemma {:induction false} WordBeforeSpace(w: string, rest: string)
    requires forall i :: 0 <= i < |w| ==> !IsJavaWhitespace(w[i])
    ensures Word(w + " " + rest) == w
    ensures Word(w) == w
    decreases |w|
  {
    if w != [] {
      assert (w + " " + rest)[1..] == w[1..] + " " + rest;
      WordBeforeSpace(w[1..], rest);
    }
  }

  /** Whitespace before the first token is skipped. */
  lemma ScanSpace(rest: string)
    ensures Scan(" " + rest) == Scan(rest)
  {
    assert (" " + rest)[1..] == rest;
  }

  /** A whitespace-free word followed by a space is the next token, and scanning goes on after the space. */
  lemma ScanWord(w: string, rest: string)
    requires |w| > 0 && forall i :: 0 <= i < |w| ==> !IsJavaWhitespace(w[i])
    ensures Scan(w + " " + rest) == [w] + Scan(rest)
  {
    WordBeforeSpace(w, rest);
    var s := w + " " + rest;
    assert s[|w|..] == " " + rest;
    ScanSpace(rest);
  }

  /** A whitespace-free word at the end of the string is the last token. */
  lemma ScanLastWord(w: string)
    requires |w| > 0 && forall i :: 0 <= i < |w| ==> !IsJavaWhitespace(w[i])
    ensures Scan(w) == [w]
  {
    WordBeforeSpace(w, "");
    assert w[|w|..] == [];
  }

  /** A nonempty word free of whitespace: what `Scanner.next()` can return. */
  predicate IsWord(w: string) {
    |w| > 0 && forall i :: 0 <= i < |w| ==> !IsJavaWhitespace(w[i])
  }

  /** The words with one space between neighbours. */
  function Spaced(words: seq<string>): string
    requires |words| > 0
  {
    if |words| == 1 then words[0] else words[0] + " " + Spaced(words[1..])
  }

  /** Scanning words separated by single spaces gives the words back. */
  lemma {:induction false} ScanSpaced(words: seq<string>)
    requires |words| > 0 && forall k :: 0 <= k < |words| ==> IsWord(words[k])
    ensures Scan(Spaced(words)) == words
    decreases |words|
  {
    if |words| == 1 {
      ScanLastWord(words[0]);
    } else {
      ScanSpaced(words[1..]);
      ScanWord(words[0], Spaced(words[1..]));
    }
  }

  /** Padding leaves words without parentheses as they are. */
  lemma {:induction false} PadSpaced(words: seq<string>)
    requires |words| > 0 && forall k, i :: 0 <= k < |words| && 0 <= i < |words[k]| ==> !IsParenthesis(words[k][i])
    ensures Pad(Spaced(words)) == Spaced(words)
    decreases |words|
  {
    if |words| == 1 {
      PadWithoutParentheses(words[0]);
    } else {
      PadSpaced(words[1..]);
      PadWithoutParentheses(words[0]);
      PadAppend(words[0], " " + Spaced(words[1..]));
      PadAppend(" ", Spaced(words[1..]));
      assert Pad(" ") == " ";
      assert words[0] + " " + Spaced(words[1..]) == words[0] + (" " + Spaced(words[1..]));
    }
  }

  /** A word and a space in front of text that scans to `ws` and then `Scan(rest)`. */
  lemma ScanWordThen(head: string, tail: string, rest: string, ws: seq<string>)
    requires IsWord(head)
    requires Scan(tail + " " + rest) == ws + Scan(rest)
    ensures Scan((head + " " + tail) + " " + rest) == [head] + ws + Scan(rest)
  {
    assert (head + " " + tail) + " " + rest == head + " " + (tail + " " + rest);
    ScanWord(head, tail + " " + rest);
  }

  /** One step of `ScanSpacedThen`: the first word, then the rest as scanned already. */
  lemma ScanSpacedStep(words: seq<string>, rest: string)
    requires |words| > 1 && IsWord(words[0])
    requires Scan(Spaced(words[1..]) + " " + rest) == words[1..] + Scan(rest)
    ensures Scan(Spaced(words) + " " + rest) == words + Scan(rest)
  {
    assert Spaced(words) == words[0] + " " + Spaced(words[1..]);
    ScanWordThen(words[0], Spaced(words[1..]), rest, words[1..]);
    assert words == [words[0]] + words[1..];
  }

  /** Scanning goes on after words separated by single spaces and one more space. */
  lemma {:induction false} ScanSpacedThen(words: seq<string>, rest: string)
    requires |words| > 0 && forall k :: 0 <= k < |words| ==> IsWord(words[k])
    ensures Scan(Spaced(words) + " " + rest) == words + Scan(rest)
    decreases |words|
  {
    if |words| == 1 {
      ScanWord(words[0], rest);
    } else {
      ScanSpacedThen(words[1..], rest);
      ScanSpacedStep(words, rest);
    }
  }

  predicate PlainWords(words: seq<string>) {
    && |words| > 0
    && (forall k :: 0 <= k < |words| ==> IsWord(words[k]))
    && (forall k, i :: 0 <= k < |words| && 0 <= i < |words[k]| ==> !IsParenthesis(words[k][i]))
  }

  /** Padding a group: `a (b) c` becomes `a  ( b )  c`. */
  lemma PadGroup(a: string, b: string, c: string)
    requires Pad(a) == a && Pad(b) == b && Pad(c) == c
    ensures Pad(a + (" " + ("(" + (b + (")" + (" " + c)))))) == a + (" " + (" ( " + (b + (" ) " + (" " + c)))))
  {
    var s4 := " " + c;
    var s3 := ")" + s4;
    var s2 := b + s3;
    var s1 := "(" + s2;
    var s0 := " " + s1;
    assert Pad(s4) == " " + c by { PadAppend(" ", c); assert Pad(" ") == " "; }
    assert Pad(s3) == " ) " + Pad(s4) by { PadAppend(")", s4); assert Pad(")") == " ) "; }
    assert Pad(s2) == b + Pad(s3) by { PadAppend(b, s3); }
    assert Pad(s1) == " ( " + Pad(s2) by { PadAppend("(", s2); assert Pad("(") == " ( "; }
    assert Pad(s0) == " " + Pad(s1) by { PadAppend(" ", s1); assert Pad(" ") == " "; }
    PadAppend(a, s0);
  }

  /** Words, a space, and then more text (right-nested). */
  lemma ScanSpacedThenRight(words: seq<string>, rest: string)
    requires |words| > 0 && forall k :: 0 <= k < |words| ==> IsWord(words[k])
    ensures Scan(Spaced(words) + (" " + rest)) == words + Scan(rest)
  {
    assert Spaced(words) + (" " + rest) == Spaced(words) + " " + rest;
    ScanSpacedThen(words, rest);
  }

  /** A padded `(` is a token of its own. */
  lemma ScanOpen(rest: string)
    ensures Scan(" ( " + rest) == ["("] + Scan(rest)
  {
    assert " ( " + rest == " " + ("(" + " " + rest);
    ScanSpace("(" + " " + rest);
    ScanWord("(", rest);
  }

  /** Words followed by a padded `)`. */
  lemma ScanClose(words: seq<string>, rest: string)
    requires |words| > 0 && forall k :: 0 <= k < |words| ==> IsWord(words[k])
    ensures Scan(Spaced(words) + (" ) " + rest)) == words + [")"] + Scan(rest)
  {
    assert " ) " + rest == " " + (")" + " " + rest);
    ScanSpacedThenRight(words, ")" + " " + rest);
    ScanWord(")", rest);
  }

  /** Scanning a padded group and the words after it. */
  lemma ScanGroupTail(inside: seq<string>, after: seq<string>)
    requires |inside| > 0 && forall k :: 0 <= k < |inside| ==> IsWord(inside[k])
    requires |after| > 0 && forall k :: 0 <= k < |after| ==> IsWord(after[k])
    ensures Scan(" ( " + (Spaced(inside) + (" ) " + (" " + Spaced(after))))) == ["("] + (inside + [")"] + after)
  {
    var c := Spaced(after);
    var t2 := Spaced(inside) + (" ) " + (" " + c));
    ScanSpace(c);
    ScanSpaced(after);
    ScanClose(inside, " " + c);
    ScanOpen(t2);
  }

  /** Scanning a padded group. */
  lemma ScanGroup(before: seq<string>, inside: seq<string>, after: seq<string>)
    requires |before| > 0 && forall k :: 0 <= k < |before| ==> IsWord(before[k])
    requires |inside| > 0 && forall k :: 0 <= k < |inside| ==> IsWord(inside[k])
    requires |after| > 0 && forall k :: 0 <= k < |after| ==> IsWord(after[k])
    ensures var a, b, c := Spaced(before), Spaced(inside), Spaced(after);
            Scan(a + (" " + (" ( " + (b + (" ) " + (" " + c)))))) == before + ["("] + inside + [")"] + after
  {
    var t1 := " ( " + (Spaced(inside) + (" ) " + (" " + Spaced(after))));
    ScanGroupTail(inside, after);
    ScanSpacedThenRight(before, t1);
    Regroup(before, ["("], inside, [")"], after);
  }

  /** Concatenation regrouped from right-nested to left-nested. */
  lemma Regroup(a: seq<string>, b: seq<string>, c: seq<string>, d: seq<string>, e: seq<string>)
    ensures a + (b + (c + d + e)) == a + b + c + d + e
  {
  }

  /** A parenthesised group written the usual way, `a = (b + c) * d`, gives the words before
      it, `(`, the words inside, `)` and the words after it: the padding splits `(b` and `c)`. */
  lemma TokenizeGroup(e: string, before: seq<string>, inside: seq<string>, after: seq<string>)
    requires PlainWords(before) && PlainWords(inside) && PlainWords(after)
    requires e == Spaced(before) + (" " + ("(" + (Spaced(inside) + (")" + (" " + Spaced(after))))))
    ensures Tokenize(e) == before + ["("] + inside + [")"] + after
  {
    PadSpaced(before);
    PadSpaced(inside);
    PadSpaced(after);
    PadGroup(Spaced(before), Spaced(inside), Spaced(after));
    ScanGroup(before, inside, after);
  }
}
