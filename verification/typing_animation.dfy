/** The typing effect: a word is typed one character at a time, held for two
seconds once complete, deleted one character at a time, and then the next word
(wrapping round the list) is typed.

Each run of the effect registers one timeout; when it fires, `Step` computes the
new state. The first timeout that finds the word complete also registers the
2000 ms hold after which deletion starts. Text is cut with JavaScript's `substring`, which
clamps its bounds to the string and swaps them when they are reversed.
 */
module TypingAnimation {

  /** A bound clamped into `[0, n]`. */
  function Clamp(x: int, n: nat): (c: nat)
    ensures c <= n
    ensures 0 <= x <= n ==> c == x
    ensures x < 0 ==> c == 0
    ensures x > n ==> c == n
  {
    if x < 0 then 0 else if x > n then n else x
  }

  /** `s.substring(start, end)`. */
  function Substring(s: string, start: int, end: int): (r: string)
    ensures 0 <= start <= end <= |s| ==> r == s[start..end]
    ensures 0 <= end <= start <= |s| ==> r == s[end..start]
    ensures start <= 0 && end <= 0 ==> r == ""
    ensures |r| <= |s|
  {
    var a, b := Clamp(start, |s|), Clamp(end, |s|);
    if a <= b then s[a..b] else s[b..a]
  }

  /** A piece taken from the start is a prefix, as long as the clamped bound. */
  lemma SubstringPrefix(s: string, k: int)
    ensures Substring(s, 0, k) <= s
    ensures |Substring(s, 0, k)| == Clamp(k, |s|)
  {
    assert Substring(s, 0, k) == s[..Clamp(k, |s|)];
  }

  const TypeSpeed: int := 150
  const DeleteSpeed: int := 100
  /** The first timeout is negative, which timers treat as no delay. */
  const InitialSpeed: int := -100000

  /** The shown text, the direction, the word being shown and the delay of the
      next timeout. */
  datatype Typing = Typing(text: string, deleting: bool, index: nat, speed: int)

  function Init(): (s: Typing)
    ensures s.text == "" && !s.deleting && s.index == 0 && s.speed < 0
  {
    Typing("", false, 0, InitialSpeed)
  }

  /** The outcome of one timeout: the new state, and whether the 2000 ms timer
      that starts deletion was registered. */
  datatype Outcome = Outcome(next: Typing, hold: bool)

  /** One timeout of the effect. The text always ends up a prefix of the word
      then shown; typing adds one character, deleting removes one, and deleting
      from empty text moves on to the next word. */
  function Step(words: seq<string>, s: Typing): (o: Outcome)
    requires s.index < |words|
    ensures o.next.index < |words|
    ensures o.next.text <= words[o.next.index]
    ensures !s.deleting ==>
      && !o.next.deleting && o.next.index == s.index && o.next.speed == TypeSpeed
      && (o.hold <==> s.text == words[s.index])
    ensures !s.deleting && s.text <= words[s.index] && s.text != words[s.index] ==>
      o.next.text == words[s.index][..|s.text| + 1]
    ensures !s.deleting && s.text == words[s.index] ==> o.next.text == s.text
    ensures s.deleting ==> !o.hold && o.next.speed == DeleteSpeed
    ensures s.deleting && s.text != "" && s.text <= words[s.index] ==>
      o.next.text == s.text[..|s.text| - 1] && o.next.deleting && o.next.index == s.index
    ensures s.deleting && s.text == "" ==>
      o.next.text == "" && !o.next.deleting && o.next.index == (s.index + 1) % |words|
  {
    var word := words[s.index];
    if !s.deleting then
      SubstringPrefix(word, |s.text| + 1);
      Outcome(Typing(Substring(word, 0, |s.text| + 1), false, s.index, TypeSpeed), s.text == word)
    else
      SubstringPrefix(word, |s.text| - 1);
      if s.text == "" then
        Outcome(Typing(Substring(word, 0, |s.text| - 1), false, (s.index + 1) % |words|, DeleteSpeed), false)
      else
        Outcome(Typing(Substring(word, 0, |s.text| - 1), true, s.index, DeleteSpeed), false)
  }

  /** One timeout, followed by the hold timer when that timeout registered it.
      With a non-empty word the timeout that registers the hold leaves the
      state as it was, so the effect only runs again before the hold fires if
      the `words` array it depends on is replaced; the model takes the array
      to be the same one throughout. */
  function Next(words: seq<string>, s: Typing): (r: Typing)
    requires s.index < |words|
    ensures r.index < |words| && r.text <= words[r.index]
    ensures !s.deleting && s.text == words[s.index] ==> r.deleting && r.text == s.text && r.index == s.index
  {
    var o := Step(words, s);
    if o.hold then o.next.(deleting := true) else o.next
  }

  /** `k` timeouts of the effect. */
  function Steps(words: seq<string>, s: Typing, k: nat): (r: Typing)
    requires s.index < |words|
    ensures r.index < |words|
    decreases k
  {
    if k == 0 then s else Steps(words, Next(words, s), k - 1)
  }

  /** Whatever happens, the index stays in range and the text is a prefix of
      the word shown. */
  lemma {:induction false} StepsKeepPrefix(words: seq<string>, s: Typing, k: nat)
    requires s.index < |words| && s.text <= words[s.index]
    ensures Steps(words, s, k).text <= words[Steps(words, s, k).index]
    decreases k
  {
    if k > 0 {
      StepsKeepPrefix(words, Next(words, s), k - 1);
    }
  }

  lemma {:induction false} StepsAdd(words: seq<string>, s: Typing, a: nat, b: nat)
    requires s.index < |words|
    ensures Steps(words, s, a + b) == Steps(words, Steps(words, s, a), b)
    decreases a
  {
    if a > 0 {
      StepsAdd(words, Next(words, s), a - 1, b);
    }
  }

  /** Typing `k` more characters of the word. */
  lemma {:induction false} TypeUp(words: seq<string>, i: nat, j: nat, k: nat, speed: int)
    requires i < |words| && j + k <= |words[i]|
    ensures Steps(words, Typing(words[i][..j], false, i, speed), k)
         == Typing(words[i][..j + k], false, i, if k == 0 then speed else TypeSpeed)
    decreases k
  {
    if k > 0 {
      var w := words[i];
      var s := Typing(w[..j], false, i, speed);
      assert w[..j] <= w && w[..j] != w;
      assert Next(words, s) == Typing(w[..j + 1], false, i, TypeSpeed);
      TypeUp(words, i, j + 1, k - 1, TypeSpeed);
    }
  }

  /** Deleting `k` characters of the word. */
  lemma {:induction false} DeleteDown(words: seq<string>, i: nat, j: nat, k: nat, speed: int)
    requires i < |words| && k <= j <= |words[i]|
    ensures Steps(words, Typing(words[i][..j], true, i, speed), k)
         == Typing(words[i][..j - k], true, i, if k == 0 then speed else DeleteSpeed)
    decreases k
  {
    if k > 0 {
      var w := words[i];
      var s := Typing(w[..j], true, i, speed);
      assert w[..j] <= w && w[..j] != "";
      assert w[..j][..j - 1] == w[..j - 1];
      assert Next(words, s) == Typing(w[..j - 1], true, i, DeleteSpeed);
      DeleteDown(words, i, j - 1, k - 1, DeleteSpeed);
    }
  }

  /** One full cycle over a non-empty word: starting from empty text it is
      typed in `|w|` timeouts, held, deleted in `|w|` timeouts, and one more
      timeout moves on to the next word, wrapping after the last. */
  lemma WordCycle(words: seq<string>, i: nat, speed: int)
    requires i < |words| && words[i] != []
    ensures Steps(words, Typing("", false, i, speed), 2 * |words[i]| + 2)
         == Typing("", false, (i + 1) % |words|, DeleteSpeed)
  {
    var w := words[i];
    var n := |w|;
    var s0 := Typing("", false, i, speed);
    assert w[..0] == "";
    TypeUp(words, i, 0, n, speed);
    assert w[..n] == w;
    var s1 := Steps(words, s0, n);
    assert s1 == Typing(w, false, i, TypeSpeed);
    var s2 := Next(words, s1);
    assert s2 == Typing(w, true, i, TypeSpeed);
    assert Steps(words, s1, 1) == s2;
    DeleteDown(words, i, n, n, TypeSpeed);
    var s3 := Steps(words, s2, n);
    assert s3 == Typing("", true, i, DeleteSpeed);
    var s4 := Next(words, s3);
    assert s4 == Typing("", false, (i + 1) % |words|, DeleteSpeed);
    assert Steps(words, s3, 1) == s4;
    StepsAdd(words, s0, n, 1);
    StepsAdd(words, s0, n + 1, n);
    StepsAdd(words, s0, 2 * n + 1, 1);
  }
}
