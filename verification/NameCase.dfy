/**
  Conversion of names between snake case and camel case, on ASCII text.
*/
module NameCase {

  predicate IsUpper(c: char) { 'A' <= c <= 'Z' }
  predicate IsLower(c: char) { 'a' <= c <= 'z' }

  function ToLower(c: char): char {
    if IsUpper(c) then c + ('a' - 'A') else c
  }

  function ToUpper(c: char): char {
    if IsLower(c) then c - ('a' - 'A') else c
  }

  function LowerAll(s: string): (r: string)
    ensures |r| == |s| && forall i :: 0 <= i < |s| ==> r[i] == ToLower(s[i])
  {
    if s == "" then "" else [ToLower(s[0])] + LowerAll(s[1..])
  }

  /** An upper-case letter, not at the start, that follows a lower-case letter or is followed by one. */
  predicate Marked(x: string, i: nat)
    requires i < |x|
  {
    IsUpper(x[i]) && i > 0 && (IsLower(x[i - 1]) || (i + 1 < |x| && IsLower(x[i + 1])))
  }

  /** From position `i` on: an underscore before each marked letter, and everything in lower case. */
  function UnderlineFrom(x: string, i: nat): string
    requires i <= |x|
    decreases |x| - i
  {
    if i == |x| then ""
    else if Marked(x, i) then ['_', ToLower(x[i])] + UnderlineFrom(x, i + 1)
    else [ToLower(x[i])] + UnderlineFrom(x, i + 1)
  }

  function ToUnderline(x: string): string {
    UnderlineFrom(x, 0)
  }

  /** Each underscore before a letter goes, and the letter becomes upper case. */
  function Humps(s: string): string {
    if s == "" then ""
    else if s[0] == '_' && |s| > 1 && (IsLower(s[1]) || IsUpper(s[1])) then [ToUpper(s[1])] + Humps(s[2..])
    else [s[0]] + Humps(s[1..])
  }

  /** An empty name has no first letter: the conversion fails. */
  function ToUpperCamel(x: string): string
    requires x != ""
  {
    var s := Humps(LowerAll(x));
    if s == "" then "" else [ToUpper(s[0])] + s[1..]
  }

  function ToLowerCamel(x: string): string
    requires x != ""
  {
    var s := Humps(LowerAll(x));
    if s == "" then "" else [ToLower(s[0])] + s[1..]
  }

  /******* Names made of words *******/

  ghost predicate IsWord(w: string) {
    w != "" && forall i :: 0 <= i < |w| ==> IsLower(w[i])
  }

  ghost predicate AreWords(ws: seq<string>) {
    forall i :: 0 <= i < |ws| ==> IsWord(ws[i])
  }

  /** Each word after an underscore. */
  function Tail(ws: seq<string>): string {
    if ws == [] then "" else "_" + ws[0] + Tail(ws[1..])
  }

  function Snake(ws: seq<string>): string
    requires ws != []
  {
    ws[0] + Tail(ws[1..])
  }

  function Capital(w: string): string
    requires w != ""
  {
    [ToUpper(w[0])] + w[1..]
  }

  /** Each word with a capital. */
  function Camel(ws: seq<string>): string
    requires AreWords(ws)
  {
    if ws == [] then "" else Capital(ws[0]) + Camel(ws[1..])
  }

  /** Two words in a row of one letter each. */
  predicate ShortPairAt(ws: seq<string>, i: nat)
    requires 0 < i < |ws|
  {
    |ws[i - 1]| == 1 && |ws[i]| == 1
  }

  /******* What the camel forms are *******/

  lemma {:induction false} HumpsWord(w: string, s: string)
    requires forall i :: 0 <= i < |w| ==> IsLower(w[i])
    ensures Humps(w + s) == w + Humps(s)
  {
    if w == "" {
      assert w + s == s;
    } else {
      HumpsWord(w[1..], s);
      WordFirst(w, s);
      WordFirst(w, Humps(s));
      HumpsLetter(w[0], w[1..] + s);
      hide *;
    }
  }

  lemma HumpsLetter(c: char, s: string)
    requires IsLower(c)
    ensures Humps([c] + s) == [c] + Humps(s)
  {
    assert ([c] + s)[1..] == s;
  }

  lemma WordFirst(w: string, rest: string)
    requires w != ""
    ensures w + rest == [w[0]] + (w[1..] + rest)
  {
  }

  /** One more word: its underscore goes and its first letter becomes a capital. */
  lemma HumpsNext(w: string, s: string)
    requires IsWord(w)
    ensures Humps("_" + w + s) == Capital(w) + Humps(s)
  {
    HumpsWord(w[1..], s);
    assert "_" + w + s == ['_', w[0]] + (w[1..] + s);
    assert Capital(w) + Humps(s) == [ToUpper(w[0])] + (w[1..] + Humps(s));
  }

  lemma {:induction false} HumpsTail(ws: seq<string>)
    requires AreWords(ws)
    ensures Humps(Tail(ws)) == Camel(ws)
  {
    if ws != [] {
      HumpsTail(ws[1..]);
      HumpsNext(ws[0], Tail(ws[1..]));
    }
  }

  lemma {:induction false} TailLower(ws: seq<string>)
    requires AreWords(ws)
    ensures forall i :: 0 <= i < |Tail(ws)| ==> !IsUpper(Tail(ws)[i])
  {
    if ws != [] {
      TailLower(ws[1..]);
    }
  }

  lemma LowerAllSame(s: string)
    requires forall i :: 0 <= i < |s| ==> !IsUpper(s[i])
    ensures LowerAll(s) == s
  {
  }

  lemma HumpsSnake(ws: seq<string>)
    requires AreWords(ws) && ws != []
    ensures Humps(LowerAll(Snake(ws))) == ws[0] + Camel(ws[1..])
  {
    TailLower(ws[1..]);
    LowerAllSame(Snake(ws));
    HumpsWord(ws[0], Tail(ws[1..]));
    HumpsTail(ws[1..]);
  }

  lemma CamelForms(ws: seq<string>)
    requires AreWords(ws) && ws != []
    ensures ToUpperCamel(Snake(ws)) == Camel(ws)
    ensures ToLowerCamel(Snake(ws)) == ws[0] + Camel(ws[1..])
  {
    HumpsSnake(ws);
    FirstLetter(ws[0], Camel(ws[1..]));
  }

  lemma FirstLetter(w: string, rest: string)
    requires IsWord(w)
    ensures var s := w + rest; [ToUpper(s[0])] + s[1..] == Capital(w) + rest && [ToLower(s[0])] + s[1..] == s
  {
    assert (w + rest)[1..] == w[1..] + rest;
  }

  /******* What becomes of them *******/

  /** What the words after the first become: the underscore is lost between two words of one letter. */
  function Restored(afterLower: bool, ws: seq<string>): string
    decreases |ws|
  {
    if ws == [] then ""
    else if afterLower || |ws[0]| > 1 then "_" + ws[0] + Restored(|ws[0]| > 1, ws[1..])
    else ws[0] + Restored(|ws[0]| > 1, ws[1..])
  }

  lemma {:induction false} UnderlineLower(x: string, i: nat, j: nat)
    requires i <= j <= |x| && forall k :: i <= k < j ==> IsLower(x[k])
    ensures UnderlineFrom(x, i) == x[i..j] + UnderlineFrom(x, j)
    decreases j - i
  {
    if i == j {
      assert x[i..j] + UnderlineFrom(x, j) == UnderlineFrom(x, j);
    } else {
      assert UnderlineFrom(x, i) == [x[i]] + UnderlineFrom(x, i + 1);
      UnderlineLower(x, i + 1, j);
      hide *;
      SliceFirst(x, i, j, UnderlineFrom(x, j));
    }
  }

  lemma SliceFirst(x: string, i: nat, j: nat, rest: string)
    requires i < j <= |x|
    ensures x[i..j] + rest == [x[i]] + (x[i + 1..j] + rest)
  {
  }

  /** What goes before the letter at `i`. */
  function Mark(x: string, i: nat): string
    requires i < |x|
  {
    if Marked(x, i) then "_" else ""
  }

  /** A capital and the rest of its word, somewhere inside a name. */
  lemma UnderlineWord(x: string, i: nat, w: string)
    requires IsWord(w) && i + |w| <= |x| && x[i..i + |w|] == Capital(w)
    ensures UnderlineFrom(x, i) == Mark(x, i) + (w + UnderlineFrom(x, i + |w|))
  {
    CapitalAt(x, i, w);
    hide *;
    UnderlineLower(x, i + 1, i + |w|);
    UnderlineCapital(x, i, w[0]);
    WordFirst(w, UnderlineFrom(x, i + |w|));
  }

  lemma CapitalAt(x: string, i: nat, w: string)
    requires IsWord(w) && i + |w| <= |x| && x[i..i + |w|] == Capital(w)
    ensures IsLower(w[0]) && x[i] == ToUpper(w[0]) && x[i + 1..i + |w|] == w[1..]
    ensures forall k :: i < k < i + |w| ==> IsLower(x[k])
  {
    assert x[i] == x[i..i + |w|][0];
    assert x[i + 1..i + |w|] == x[i..i + |w|][1..];
    forall k | i < k < i + |w| ensures IsLower(x[k]) {
      assert x[k] == x[i..i + |w|][k - i];
    }
  }

  lemma UnderlineCapital(x: string, i: nat, c: char)
    requires i < |x| && IsLower(c) && x[i] == ToUpper(c)
    ensures UnderlineFrom(x, i) == Mark(x, i) + ([c] + UnderlineFrom(x, i + 1))
  {
  }

  lemma UnderlineNext(pre: string, w: string, rest: seq<string>)
    requires pre != "" && IsWord(w) && AreWords(rest)
    ensures var x := pre + Capital(w) + Camel(rest);
            UnderlineFrom(x, |pre|)
            == (if IsLower(pre[|pre| - 1]) || |w| > 1 then "_" else "") + (w + UnderlineFrom(x, |pre + Capital(w)|))
  {
    var x := pre + Capital(w) + Camel(rest);
    assert x[|pre|..|pre| + |w|] == Capital(w);
    UnderlineWord(x, |pre|, w);
    MarkedWord(pre, w, rest);
  }

  lemma {:induction false} UnderlineCamel(pre: string, ws: seq<string>)
    requires pre != "" && AreWords(ws)
    ensures UnderlineFrom(pre + Camel(ws), |pre|) == Restored(IsLower(pre[|pre| - 1]), ws)
    decreases |ws|
  {
    if ws != [] {
      var pre' := pre + Capital(ws[0]);
      assert pre + Camel(ws) == pre' + Camel(ws[1..]);
      UnderlineCamel(pre', ws[1..]);
      UnderlineNext(pre, ws[0], ws[1..]);
      LastOfCapital(pre, ws[0]);
      RestoredStep(IsLower(pre[|pre| - 1]), ws);
    }
  }

  lemma LastOfCapital(pre: string, w: string)
    requires IsWord(w)
    ensures IsLower((pre + Capital(w))[|pre| + |w| - 1]) <==> |w| > 1
  {
  }

  lemma RestoredStep(afterLower: bool, ws: seq<string>)
    requires ws != []
    ensures Restored(afterLower, ws)
         == (if afterLower || |ws[0]| > 1 then "_" else "") + (ws[0] + Restored(|ws[0]| > 1, ws[1..]))
  {
  }

  /** The capital of a word is marked exactly if a lower-case letter comes before it or its word goes on. */
  lemma MarkedWord(pre: string, w: string, rest: seq<string>)
    requires pre != "" && IsWord(w) && AreWords(rest)
    ensures Marked(pre + Capital(w) + Camel(rest), |pre|) <==> IsLower(pre[|pre| - 1]) || |w| > 1
  {
    var x, i := pre + Capital(w) + Camel(rest), |pre|;
    assert x[i] == ToUpper(w[0]) && x[i - 1] == pre[i - 1];
    if |w| > 1 {
      assert x[i + 1] == w[1];
    } else if rest != [] {
      assert x[i + 1] == Camel(rest)[0] == ToUpper(rest[0][0]);
    }
  }

  /** From words to camel case and back. */
  lemma UnderlineUpper(ws: seq<string>)
    requires AreWords(ws) && ws != []
    ensures ToUnderline(Camel(ws)) == ws[0] + Restored(|ws[0]| > 1, ws[1..])
  {
    var w, x := ws[0], Camel(ws);
    assert x[0..0 + |w|] == Capital(w);
    UnderlineWord(x, 0, w);
    UnderlineCamel(Capital(w), ws[1..]);
    LastOfCapital("", w);
    assert "" + Capital(w) == Capital(w);
  }

  lemma UnderlineLowerCamel(ws: seq<string>)
    requires AreWords(ws) && ws != []
    ensures ToUnderline(ws[0] + Camel(ws[1..])) == ws[0] + Restored(true, ws[1..])
  {
    var w, x := ws[0], ws[0] + Camel(ws[1..]);
    UnderlineLower(x, 0, |w|);
    UnderlineCamel(w, ws[1..]);
    assert x[0..|w|] == w;
  }

  ghost predicate NoShortPair(ws: seq<string>) {
    forall i :: 0 < i < |ws| ==> !ShortPairAt(ws, i)
  }

  lemma {:induction false} RestoredLength(afterLower: bool, ws: seq<string>)
    ensures |Restored(afterLower, ws)| <= |Tail(ws)|
    decreases |ws|
  {
    if ws != [] {
      RestoredLength(|ws[0]| > 1, ws[1..]);
    }
  }

  /** All underscores are back if and only if there is none between two words of one letter. */
  lemma {:induction false} RestoredExact(first: string, ws: seq<string>)
    requires first != "" && AreWords(ws)
    ensures Restored(|first| > 1, ws) == Tail(ws) <==> NoShortPair([first] + ws)
    decreases |ws|
  {
    var all := [first] + ws;
    if ws != [] {
      RestoredLength(|ws[0]| > 1, ws[1..]);
      RestoredExact(ws[0], ws[1..]);
      assert [ws[0]] + ws[1..] == ws;
      assert NoShortPair(all) <==> !ShortPairAt(all, 1) && NoShortPair(ws) by {
        forall i | 1 < i < |all| ensures ShortPairAt(all, i) == ShortPairAt(ws, i - 1) {
        }
        if NoShortPair(all) {
          forall i | 0 < i < |ws| ensures !ShortPairAt(ws, i) {
            assert !ShortPairAt(all, i + 1);
          }
        }
      }
      SameRest(|first| > 1, ws);
    }
  }

  lemma SameRest(afterLower: bool, ws: seq<string>)
    requires ws != []
    ensures Restored(afterLower, ws) == Tail(ws) <==>
              (afterLower || |ws[0]| > 1) && Restored(|ws[0]| > 1, ws[1..]) == Tail(ws[1..])
  {
    RestoredLength(|ws[0]| > 1, ws[1..]);
    var r, t := Restored(|ws[0]| > 1, ws[1..]), Tail(ws[1..]);
    if afterLower || |ws[0]| > 1 {
      var pre := "_" + ws[0];
      assert (pre + r)[|pre|..] == r && (pre + t)[|pre|..] == t;
    }
  }

  /** Upper camel case loses nothing if and only if no two words in a row have one letter each. */
  lemma UpperCamelInvertible(ws: seq<string>)
    requires AreWords(ws) && ws != []
    ensures ToUnderline(ToUpperCamel(Snake(ws))) == Snake(ws) <==> NoShortPair(ws)
  {
    CamelForms(ws);
    UnderlineUpper(ws);
    RestoredExact(ws[0], ws[1..]);
    assert [ws[0]] + ws[1..] == ws;
    SameAfter(ws[0], Restored(|ws[0]| > 1, ws[1..]), Tail(ws[1..]));
  }

  lemma SameAfter(w: string, a: string, b: string)
    ensures w + a == w + b <==> a == b
  {
    assert (w + a)[|w|..] == a && (w + b)[|w|..] == b;
  }

  /** For lower camel case the same holds of the words after the first. */
  lemma LowerCamelInvertible(ws: seq<string>)
    requires AreWords(ws) && ws != []
    ensures ToUnderline(ToLowerCamel(Snake(ws))) == Snake(ws) <==> NoShortPair(ws[1..])
  {
    CamelForms(ws);
    UnderlineLowerCamel(ws);
    SameAfter(ws[0], Restored(true, ws[1..]), Tail(ws[1..]));
    if |ws| > 1 {
      SameRest(true, ws[1..]);
      RestoredExact(ws[1], ws[1..][1..]);
      assert [ws[1]] + ws[1..][1..] == ws[1..];
    }
  }
}
