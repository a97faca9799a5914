/**
 * The renaming rules of serde's derive macros that `#[serde(rename_all = ...)]` selects:
 * "lowercase" and "camelCase" for enum variants, "camelCase" for struct fields. They
 * work on ASCII letters only; every other character is kept as it is.
 */
module SerdeCase {

  predicate IsAsciiUpper(c: char) {
    'A' <= c <= 'Z'
  }

  predicate IsAsciiLower(c: char) {
    'a' <= c <= 'z'
  }

  /** `char::to_ascii_lowercase`. */
  function AsciiLower(c: char): (r: char)
    ensures !IsAsciiUpper(r)
    ensures IsAsciiUpper(c) ==> IsAsciiLower(r) && r as int == c as int + 32
    ensures !IsAsciiUpper(c) ==> r == c
  {
    if IsAsciiUpper(c) then (c as int + 32) as char else c
  }

  /** `char::to_ascii_uppercase`. */
  function AsciiUpper(c: char): (r: char)
    ensures !IsAsciiLower(r)
    ensures IsAsciiLower(c) ==> IsAsciiUpper(r) && r as int == c as int - 32
    ensures !IsAsciiLower(c) ==> r == c
  {
    if IsAsciiLower(c) then (c as int - 32) as char else c
  }

  /** `str::to_ascii_lowercase`: the rule "lowercase" applied to a variant name. */
  function LowercaseVariant(s: string): (r: string)
    ensures |r| == |s|
    ensures forall i :: 0 <= i < |s| ==> r[i] == AsciiLower(s[i])
    ensures forall i :: 0 <= i < |r| ==> !IsAsciiUpper(r[i])
  {
    seq(|s|, i requires 0 <= i < |s| => AsciiLower(s[i]))
  }

  /** The rule "camelCase" applied to a variant name: only the first character is lowered. */
  function CamelCaseVariant(s: string): (r: string)
    ensures |r| == |s|
    ensures |s| > 0 ==> r[0] == AsciiLower(s[0]) && r[1..] == s[1..]
  {
    if s == [] then [] else [AsciiLower(s[0])] + s[1..]
  }

  /**
   * The two variant rules agree up to case: lowercasing a camelCase variant name gives
   * its "lowercase" name.
   */
  lemma {:induction false} LowercaseOfCamelCase(s: string)
    ensures LowercaseVariant(CamelCaseVariant(s)) == LowercaseVariant(s)
  {
  }

  /** What one character of a field name contributes to its PascalCase form. */
  function PascalChar(c: char, capitalize: bool): (r: string)
    ensures |r| <= 1 && (r == [] <==> c == '_')
  {
    if c == '_' then [] else if capitalize then [AsciiUpper(c)] else [c]
  }

  /**
   * The rule "PascalCase" applied to a field name, from a point where `capitalize`
   * says whether the next character starts a word: underscores are dropped and the
   * character after each one is upper-cased.
   */
  function PascalFrom(s: string, capitalize: bool): (r: string)
    ensures |r| <= |s|
  {
    if s == [] then [] else PascalChar(s[0], capitalize) + PascalFrom(s[1..], s[0] == '_')
  }

  /** PascalCase removes every underscore. */
  lemma {:induction false} PascalDropsUnderscores(s: string, capitalize: bool)
    ensures forall i :: 0 <= i < |PascalFrom(s, capitalize)| ==> PascalFrom(s, capitalize)[i] != '_'
  {
    if s != [] {
      PascalDropsUnderscores(s[1..], s[0] == '_');
    }
  }

  /** Whether the word-start flag is set after `PascalFrom` has read `s`. */
  function CapitalizeAfter(s: string, capitalize: bool): bool {
    if s == [] then capitalize else s[|s| - 1] == '_'
  }

  /** The rule "camelCase" applied to a field name: PascalCase, then the first character lowered. */
  function CamelCaseField(s: string): (r: string)
    ensures forall i :: 0 <= i < |r| ==> r[i] != '_'
  {
    PascalDropsUnderscores(s, true);
    CamelCaseVariant(PascalFrom(s, true))
  }

  /** PascalCase reads a non-empty name from its first character. */
  lemma PascalStep(a: string, b: string, capitalize: bool)
    requires a != []
    ensures PascalFrom(a + b, capitalize) == PascalChar(a[0], capitalize) + PascalFrom(a[1..] + b, a[0] == '_')
  {
    assert (a + b)[0] == a[0] && (a + b)[1..] == a[1..] + b;
  }

  /** The word-start flag after a non-empty name depends only on its last character. */
  lemma CapitalizeAfterTail(a: string, capitalize: bool)
    requires a != []
    ensures CapitalizeAfter(a[1..], a[0] == '_') == CapitalizeAfter(a, capitalize)
  {
    if |a| > 1 {
      assert a[1..][|a| - 2] == a[|a| - 1];
    }
  }

  lemma {:induction false} PascalAppend(a: string, b: string, capitalize: bool)
    ensures PascalFrom(a + b, capitalize) == PascalFrom(a, capitalize) + PascalFrom(b, CapitalizeAfter(a, capitalize))
    decreases |a|, 1
  {
    if a == [] {
      assert a + b == b;
    } else {
      PascalAppendCons(a, b, capitalize);
    }
  }

  /** The inductive step of `PascalAppend`: peel the first character off `a`. */
  lemma {:induction false} PascalAppendCons(a: string, b: string, capitalize: bool)
    requires a != []
    ensures PascalFrom(a + b, capitalize) == PascalFrom(a, capitalize) + PascalFrom(b, CapitalizeAfter(a, capitalize))
    decreases |a|, 0
  {
    var t, u := a[1..], a[0] == '_';
    PascalStep(a, b, capitalize);
    PascalAppend(t, b, u);
    CapitalizeAfterTail(a, capitalize);
  }

  /** Two snake_case parts joined by an underscore: the second starts a new word. */
  lemma {:induction false} PascalJoin(a: string, b: string)
    ensures PascalFrom(a + "_" + b, true) == PascalFrom(a, true) + PascalFrom(b, true)
  {
    PascalAppend(a, "_" + b, true);
    assert PascalFrom("_" + b, CapitalizeAfter(a, true)) == PascalFrom(b, true) by {
      assert ("_" + b)[1..] == b;
    }
    assert a + "_" + b == a + ("_" + b);
  }

  /** The camelCase of `a_b` is the camelCase of `a` followed by the PascalCase of `b`. */
  lemma {:induction false} CamelCaseJoin(a: string, b: string)
    requires PascalFrom(a, true) != []
    ensures CamelCaseField(a + "_" + b) == CamelCaseField(a) + PascalFrom(b, true)
  {
    var pa, pb := PascalFrom(a, true), PascalFrom(b, true);
    PascalJoin(a, b);
    CamelCaseVariantAppend(pa, pb);
  }

  lemma {:induction false} CamelCaseVariantAppend(p: string, q: string)
    requires p != []
    ensures CamelCaseVariant(p + q) == CamelCaseVariant(p) + q
  {
    assert (p + q)[1..] == p[1..] + q;
  }

  /** Within one word (no underscore), PascalCase changes at most the first character. */
  lemma {:induction false} PascalWord(w: string, capitalize: bool)
    requires w != [] && '_' !in w
    ensures PascalFrom(w, capitalize) == [if capitalize then AsciiUpper(w[0]) else w[0]] + w[1..]
  {
    if |w| > 1 {
      PascalWord(w[1..], false);
      assert [w[1..][0]] + w[1..][1..] == w[1..];
    }
  }

  // A snake_case identifier seen as its words.

  predicate IsWord(w: string) {
    w != [] && '_' !in w
  }

  /** The identifier whose words, joined by underscores, are `words`. */
  function SnakeJoin(words: seq<string>): string
    requires |words| >= 1
  {
    if |words| == 1 then words[0] else words[0] + "_" + SnakeJoin(words[1..])
  }

  function Capitalized(w: string): string {
    if w == [] then [] else [AsciiUpper(w[0])] + w[1..]
  }

  /** Every word capitalized, then concatenated. */
  function PascalWords(words: seq<string>): string {
    if words == [] then [] else Capitalized(words[0]) + PascalWords(words[1..])
  }

  lemma {:induction false} PascalOfSnake(words: seq<string>)
    requires |words| >= 1 && forall i :: 0 <= i < |words| ==> IsWord(words[i])
    ensures PascalFrom(SnakeJoin(words), true) == PascalWords(words)
  {
    PascalWord(words[0], true);
    if |words| == 1 {
      assert PascalWords(words[1..]) == [];
    } else {
      PascalJoin(words[0], SnakeJoin(words[1..]));
      PascalOfSnake(words[1..]);
    }
  }

  /**
   * The camelCase of a snake_case identifier keeps its first word and capitalizes
   * every later one, provided the first word does not start with a capital.
   */
  lemma {:induction false} CamelCaseOfSnake(words: seq<string>)
    requires |words| >= 1 && forall i :: 0 <= i < |words| ==> IsWord(words[i])
    requires words[0] != [] && !IsAsciiUpper(words[0][0])
    ensures CamelCaseField(SnakeJoin(words)) == words[0] + PascalWords(words[1..])
  {
    PascalOfSnake(words);
    var w := words[0];
    var rest := PascalWords(words[1..]);
    var head := Capitalized(w);
    assert PascalWords(words) == head + rest;
    CamelCaseVariantAppend(head, rest);
    assert CamelCaseVariant(head) == w by {
      assert head == [AsciiUpper(w[0])] + w[1..];
      assert AsciiLower(AsciiUpper(w[0])) == w[0];
      assert [w[0]] + w[1..] == w;
    }
  }

  /**
   * The camelCase key of the identifier `ident`, read off its words: the instance of
   * `CamelCaseOfSnake` for one concrete field.
   */
  lemma {:induction false} CamelCaseKey(words: seq<string>, ident: string, key: string)
    requires |words| >= 1 && forall i :: 0 <= i < |words| ==> IsWord(words[i])
    requires words[0] != [] && !IsAsciiUpper(words[0][0])
    requires SnakeJoin(words) == ident
    requires words[0] + PascalWords(words[1..]) == key
    ensures CamelCaseField(ident) == key
  {
    CamelCaseOfSnake(words);
  }

  /** A one-word identifier that starts in lower case is its own camelCase key. */
  lemma CamelCaseOneWord(w: string)
    requires IsWord(w) && !IsAsciiUpper(w[0])
    ensures CamelCaseField(w) == w
  {
    CamelCaseKey([w], w, w);
  }
}
