/** Small value types and string helpers shared by the other modules. */
module Common {
  datatype Option<+T> = None | Some(value: T)

  /** The concatenation of a sequence of texts, in order. */
  function Concat(texts: seq<string>): string {
    if texts == [] then "" else Concat(texts[..|texts| - 1]) + texts[|texts| - 1]
  }

  function LowerChar(c: char): char {
    if 'A' <= c <= 'Z' then (c as int + 32) as char else c
  }

  /** ASCII lower case, which is all the comparisons with ASCII keywords need. */
  function Lower(s: string): (l: string)
    ensures |l| == |s|
  {
    seq(|s|, i requires 0 <= i < |s| => LowerChar(s[i]))
  }

  /** The capital of a lower-case letter. */
  function Capital(c: char): char {
    if 'a' <= c <= 'z' then (c as int - 32) as char else c
  }

  /** s is the word, each letter of it small or capital. */
  predicate Spells(s: string, word: string) {
    |s| == |word| && forall i | 0 <= i < |s| :: s[i] == word[i] || s[i] == Capital(word[i])
  }

  /** Comparing in lower case is comparing regardless of case, and with nothing else. */
  lemma {:induction false} LowerSpells(s: string, word: string)
    requires forall c | c in word :: 'a' <= c <= 'z'
    ensures Lower(s) == word <==> Spells(s, word)
  {
    forall i | 0 <= i < |word| ensures 'a' <= word[i] <= 'z' { assert word[i] in word; }
    if Spells(s, word) { assert Lower(s) == word; }
  }

  lemma ConcatSnoc(texts: seq<string>, t: string)
    ensures Concat(texts + [t]) == Concat(texts) + t
  {}

  lemma TakeSnoc<T>(s: seq<T>, n: nat)
    requires 0 < n <= |s|
    ensures s[..n] == s[..n - 1] + [s[n - 1]]
  {}
}
