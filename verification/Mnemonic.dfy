/** The twelve recovery words: printing entropy with its checksum, and checking a phrase. */
module Mnemonic {
  import opened Wrappers
  import opened Bits

  const ENTROPY_BYTES := 16
  const WORDS := 12
  const WORD_BITS := 11
  const CHECK_BITS := 4
  const LIST_SIZE := 2048

  /** The characters `trim` and `\s` treat as space. */
  predicate IsSpace(c: char) {
    c == ' ' || '\t' <= c <= '\r' || c == '\U{a0}' || c == '\U{1680}' || '\U{2000}' <= c <= '\U{200a}'
    || c == '\U{2028}' || c == '\U{2029}' || c == '\U{202f}' || c == '\U{205f}' || c == '\U{3000}' || c == '\U{feff}'
  }

  predicate IsWord(word: string) { word != "" && forall i | 0 <= i < |word| :: !IsSpace(word[i]) }

  ghost predicate IsWordList(list: seq<string>) {
    && |list| == LIST_SIZE
    && (forall i | 0 <= i < |list| :: IsWord(list[i]))
    && (forall i, j | 0 <= i < j < |list| :: list[i] != list[j])
  }

  // ---- words and phrases

  function WordLength(text: string): (n: nat)
    ensures n <= |text| && (n < |text| ==> IsSpace(text[n])) && forall i | 0 <= i < n :: !IsSpace(text[i])
  {
    if text == "" || IsSpace(text[0]) then 0 else 1 + WordLength(text[1..])
  }

  function SpaceLength(text: string): (n: nat)
    ensures n <= |text| && (n < |text| ==> !IsSpace(text[n])) && forall i | 0 <= i < n :: IsSpace(text[i])
  {
    if text == "" || !IsSpace(text[0]) then 0 else 1 + SpaceLength(text[1..])
  }

  function TrimEnd(text: string): string {
    if text == "" || !IsSpace(text[|text| - 1]) then text else TrimEnd(text[..|text| - 1])
  }

  function Trim(text: string): string { TrimEnd(text[SpaceLength(text)..]) }

  /** `text.split(/\s+/)`. */
  function SplitSpaces(text: string): seq<string> {
    var n := WordLength(text);
    if n == |text| then [text] else [text[..n]] + SplitSpaces(text[n + SpaceLength(text[n..])..])
  }

  function WordsOf(phrase: string): seq<string> { SplitSpaces(Trim(phrase)) }

  /** `words.join(" ")`. */
  function JoinWords(words: seq<string>): string {
    if words == [] then "" else if |words| == 1 then words[0] else words[0] + " " + JoinWords(words[1..])
  }

  // ---- bits

  /** SHA-256, as any function from bytes to bytes. */
  type Digest = seq<nat> -> seq<nat>

  /** The top four bits of the hash's first byte, or none when the hash is empty. */
  function Checksum(entropy: seq<nat>, digest: Digest): Option<seq<bool>> {
    var hash := digest(entropy);
    if hash == [] then None else Some(BitsOf(hash[0] / 16, CHECK_BITS))
  }

  function PhraseBits(entropy: seq<nat>, check: seq<bool>): seq<bool> { Ungroup(entropy, 8) + check }

  function WordsAt(list: seq<string>, indexes: seq<nat>): seq<string>
    requires forall i | 0 <= i < |indexes| :: indexes[i] < |list|
  {
    Map(indexes, (index: nat) => if index < |list| then list[index] else "")
  }

  ghost predicate IsEntropy(entropy: seq<nat>) { |entropy| == ENTROPY_BYTES && AllBelow(entropy, 256) }

  function IndexOf(list: seq<string>, word: string): nat { FirstIndex(list, (w: string) => w == word) }

  function Indexes(list: seq<string>, words: seq<string>): seq<nat> { Map(words, (word: string) => IndexOf(list, word)) }

  /** The entropy that twelve words stand for. */
  function Rebuilt(list: seq<string>, words: seq<string>): seq<nat>
    requires |words| == WORDS
  {
    Sizes(); Groups(Ungroup(Indexes(list, words), WORD_BITS)[..8 * ENTROPY_BYTES], 8)
  }

  ghost predicate Valid(phrase: string, list: seq<string>, digest: Digest) {
    var words := WordsOf(phrase);
    && |words| == WORDS && (forall i | 0 <= i < WORDS :: IndexOf(list, words[i]) < |list|)
    && Checksum(Rebuilt(list, words), digest) == Some(Ungroup(Indexes(list, words), WORD_BITS)[8 * ENTROPY_BYTES..])
  }

  /** The words printed for some entropy. */
  ghost function Printed(entropy: seq<nat>, list: seq<string>, digest: Digest): seq<string>
    requires IsEntropy(entropy) && |list| == LIST_SIZE && digest(entropy) != []
  {
    var bits := PhraseBits(entropy, Checksum(entropy, digest).value);
    Sizes(); UngroupOfGroups(bits, WORD_BITS, WORDS);
    WordsAt(list, Groups(bits, WORD_BITS))
  }

  // ---- the loops

  method BitsToBytes(bits: seq<bool>) returns (bytes: array<nat>)
    requires |bits| % 8 == 0
    ensures fresh(bytes) && bytes[..] == Groups(bits, 8)
  {
    bytes := new nat[|bits| / 8];
    TimesIsProduct(|Groups(bits, 8)|, 8);
    for i := 0 to bytes.Length
      invariant forall k | 0 <= k < i :: bytes[k] == Groups(bits, 8)[k]
    {
      TimesIsProduct(i, 8);
      GroupAt(bits, 8, i, i * 8);
      bytes[i] := ValueOf(bits[i * 8..i * 8 + 8]);
    }
  }

  method GenerateMnemonic(entropy: seq<nat>, list: seq<string>, digest: Digest) returns (phrase: Option<string>)
    requires IsEntropy(entropy) && |list| == LIST_SIZE
    ensures digest(entropy) == [] ==> phrase.None?
    ensures digest(entropy) != [] ==> phrase == Some(JoinWords(Printed(entropy, list, digest)))
  {
    hide Ungroup, Groups, ValueOf, BitsOf, JoinWords, Pow2;
    var hash := digest(entropy);
    if hash == [] {
      return None;
    }
    var bits := Ungroup(entropy, 8) + BitsOf(hash[0] / 16, CHECK_BITS);
    Sizes();
    UngroupOfGroups(bits, WORD_BITS, WORDS);
    ghost var groups := Groups(bits, WORD_BITS);
    var words: seq<string> := [];
    for i := 0 to WORDS
      invariant |words| == i && forall k | 0 <= k < i :: words[k] == list[groups[k]]
    {
      TimesIsProduct(i, WORD_BITS);
      GroupAt(bits, WORD_BITS, i, i * WORD_BITS);
      var index := ValueOf(bits[i * WORD_BITS..i * WORD_BITS + WORD_BITS]);
      words := words + [list[index]];
    }
    assert words == WordsAt(list, groups);
    return Some(JoinWords(words));
  }

  method ValidateMnemonic(phrase: string, list: seq<string>, digest: Digest) returns (ok: bool)
    ensures ok <==> Valid(phrase, list, digest)
  {
    hide Ungroup, Groups, BitsOf, SplitSpaces, Trim;
    var words := SplitSpaces(Trim(phrase));
    if |words| != WORDS {
      return false;
    }
    var indexes: seq<nat> := [];
    for i := 0 to WORDS
      invariant |indexes| == i && forall k | 0 <= k < i :: indexes[k] == IndexOf(list, words[k])
      invariant forall k | 0 <= k < i :: IndexOf(list, words[k]) < |list|
    {
      var index := IndexOf(list, words[i]);
      if index == |list| {
        return false;
      }
      indexes := indexes + [index];
    }
    assert indexes == Indexes(list, words);
    var bits := Ungroup(indexes, WORD_BITS);
    var entropy := BitsToBytes(bits[..8 * ENTROPY_BYTES]);
    var hash := digest(entropy[..]);
    if hash == [] {
      return false;
    }
    var expected := BitsOf(hash[0] / 16, CHECK_BITS);
    return bits[8 * ENTROPY_BYTES..] == expected;
  }

  /** The sizes that make sixteen bytes and a checksum exactly twelve words. */
  lemma Sizes()
    ensures Pow2(WORD_BITS) == LIST_SIZE && Pow2(8) == 256
    ensures Times(WORDS, WORD_BITS) == 132 && Times(ENTROPY_BYTES, 8) == 128
  {
    TimesIsProduct(WORDS, WORD_BITS);
    TimesIsProduct(ENTROPY_BYTES, 8);
    assert Pow2(4) == 16;
    assert Pow2(8) == 16 * Pow2(4);
  }

  // ---- phrases and words are inverse

  lemma {:induction false} WordThenSpace(word: string, rest: string)
    requires forall i | 0 <= i < |word| :: !IsSpace(word[i])
    requires rest != "" ==> IsSpace(rest[0])
    ensures WordLength(word + rest) == |word|
  {
    if word != "" {
      assert (word + rest)[1..] == word[1..] + rest;
      WordThenSpace(word[1..], rest);
    }
  }

  ghost predicate PlainEdges(text: string) { text != "" && !IsSpace(text[0]) && !IsSpace(text[|text| - 1]) }

  lemma SplitHead(word: string, rest: string)
    requires IsWord(word) && rest != "" && !IsSpace(rest[0])
    ensures SplitSpaces(word + " " + rest) == [word] + SplitSpaces(rest)
  {
    var text := word + " " + rest;
    assert text == word + (" " + rest);
    WordThenSpace(word, " " + rest);
    assert text[|word|..] == " " + rest && (" " + rest)[1..] == rest;
    assert SpaceLength(" " + rest) == 1;
    assert text[..|word|] == word && text[|word| + 1..] == rest;
  }

  lemma SplitOne(word: string)
    requires IsWord(word)
    ensures SplitSpaces(word) == [word]
  {
    assert word + "" == word;
    WordThenSpace(word, "");
  }

  lemma EdgesOfJoin(word: string, rest: string)
    requires IsWord(word) && (rest == "" || PlainEdges(rest))
    ensures PlainEdges(if rest == "" then word else word + " " + rest)
  {}

  lemma {:induction false} SplitJoined(words: seq<string>)
    requires words != [] && forall i | 0 <= i < |words| :: IsWord(words[i])
    ensures SplitSpaces(JoinWords(words)) == words
    ensures PlainEdges(JoinWords(words))
  {
    hide SplitSpaces, IsWord;
    if |words| == 1 {
      SplitOne(words[0]);
      EdgesOfJoin(words[0], "");
      assert words == [words[0]];
    } else {
      var rest := JoinWords(words[1..]);
      SplitJoined(words[1..]);
      SplitHead(words[0], rest);
      EdgesOfJoin(words[0], rest);
      assert words == [words[0]] + words[1..];
    }
  }

  lemma WordsOfJoined(words: seq<string>)
    requires words != [] && forall i | 0 <= i < |words| :: IsWord(words[i])
    ensures WordsOf(JoinWords(words)) == words
  {
    SplitJoined(words);
    var text := JoinWords(words);
    assert SpaceLength(text) == 0 && text[0..] == text;
  }

  lemma IndexOfListed(list: seq<string>, i: nat)
    requires IsWordList(list) && i < |list|
    ensures IndexOf(list, list[i]) == i
  {}

  lemma IndexesOfWords(list: seq<string>, indexes: seq<nat>)
    requires IsWordList(list) && AllBelow(indexes, LIST_SIZE)
    ensures Indexes(list, WordsAt(list, indexes)) == indexes
  {
    forall i | 0 <= i < |indexes| ensures IndexOf(list, WordsAt(list, indexes)[i]) == indexes[i] {
      IndexOfListed(list, indexes[i]);
    }
  }

  // ---- the main results

  lemma CheckIsTail(entropy: seq<nat>, check: seq<bool>)
    requires |entropy| == ENTROPY_BYTES
    ensures |PhraseBits(entropy, check)| == 8 * ENTROPY_BYTES + |check| && PhraseBits(entropy, check)[8 * ENTROPY_BYTES..] == check
  {
    Sizes();
  }

  lemma PrintedBits(entropy: seq<nat>, list: seq<string>, digest: Digest)
    requires IsEntropy(entropy) && IsWordList(list) && digest(entropy) != []
    ensures |Printed(entropy, list, digest)| == WORDS
    ensures forall i | 0 <= i < WORDS :: Printed(entropy, list, digest)[i] in list && IsWord(Printed(entropy, list, digest)[i])
    ensures forall i | 0 <= i < WORDS :: IndexOf(list, Printed(entropy, list, digest)[i]) < |list|
    ensures Ungroup(Indexes(list, Printed(entropy, list, digest)), WORD_BITS) == PhraseBits(entropy, Checksum(entropy, digest).value)
    ensures Rebuilt(list, Printed(entropy, list, digest)) == entropy
  {
    var bits := PhraseBits(entropy, Checksum(entropy, digest).value);
    Sizes();
    UngroupOfGroups(bits, WORD_BITS, WORDS);
    IndexesOfWords(list, Groups(bits, WORD_BITS));
    assert bits[..8 * ENTROPY_BYTES] == Ungroup(entropy, 8);
    GroupsOfUngroup(entropy, 8);
  }

  /** What is printed is accepted, and stands for the entropy it was printed from. */
  lemma PrintedIsAccepted(entropy: seq<nat>, list: seq<string>, digest: Digest)
    requires IsEntropy(entropy) && IsWordList(list) && digest(entropy) != []
    ensures Valid(JoinWords(Printed(entropy, list, digest)), list, digest)
    ensures WordsOf(JoinWords(Printed(entropy, list, digest))) == Printed(entropy, list, digest)
    ensures Rebuilt(list, Printed(entropy, list, digest)) == entropy
  {
    hide Ungroup, Groups, Times, Pow2, Indexes, WordsOf, Printed, BitsOf, JoinWords;
    var words := Printed(entropy, list, digest);
    PrintedBits(entropy, list, digest);
    WordsOfJoined(words);
    var check := Checksum(entropy, digest).value;
    CheckIsTail(entropy, check);
  }

  /** A phrase is accepted exactly when its words are those printed for some sixteen bytes. */
  lemma AcceptedIffPrinted(phrase: string, list: seq<string>, digest: Digest)
    requires IsWordList(list)
    ensures Valid(phrase, list, digest)
            <==> exists entropy | IsEntropy(entropy) && digest(entropy) != [] :: WordsOf(phrase) == Printed(entropy, list, digest)
  {
    hide Ungroup, Groups, Times, Pow2, Indexes, WordsOf, Printed, BitsOf;
    var words := WordsOf(phrase);
    if Valid(phrase, list, digest) {
      AcceptedIsPrinted(words, list, digest);
    }
    if entropy :| IsEntropy(entropy) && digest(entropy) != [] && words == Printed(entropy, list, digest) {
      PrintedBits(entropy, list, digest);
      var check := Checksum(entropy, digest).value;
      CheckIsTail(entropy, check);
    }
  }

  lemma AcceptedIsPrinted(words: seq<string>, list: seq<string>, digest: Digest)
    requires IsWordList(list) && |words| == WORDS && forall i | 0 <= i < WORDS :: IndexOf(list, words[i]) < |list|
    requires Checksum(Rebuilt(list, words), digest) == Some(Ungroup(Indexes(list, words), WORD_BITS)[8 * ENTROPY_BYTES..])
    ensures var entropy := Rebuilt(list, words);
            IsEntropy(entropy) && digest(entropy) != [] && words == Printed(entropy, list, digest)
  {
    var indexes, entropy := Indexes(list, words), Rebuilt(list, words);
    var bits := Ungroup(indexes, WORD_BITS);
    Sizes();
    UngroupOfGroups(bits[..8 * ENTROPY_BYTES], 8, ENTROPY_BYTES);
    assert bits == bits[..8 * ENTROPY_BYTES] + bits[8 * ENTROPY_BYTES..];
    assert PhraseBits(entropy, Checksum(entropy, digest).value) == bits;
    GroupsOfUngroup(indexes, WORD_BITS);
    assert WordsAt(list, indexes) == words;
  }

  // ---- the phrase as one number

  /** The entropy followed by the top four bits of its hash, as a number. */
  function PhraseNumber(entropy: seq<nat>, hashByte: nat): nat { BigEndian(entropy, 256) * 16 + hashByte / 16 % 16 }

  lemma BitsNumber(entropy: seq<nat>, digest: Digest)
    requires IsEntropy(entropy) && digest(entropy) != []
    ensures ValueOf(PhraseBits(entropy, Checksum(entropy, digest).value)) == PhraseNumber(entropy, digest(entropy)[0])
  {
    Sizes();
    var check := BitsOf(digest(entropy)[0] / 16, CHECK_BITS);
    assert Pow2(4) == 16;
    hide Ungroup, BitsOf, ValueOf, Pow2, BigEndian;
    ValueOfAppend(Ungroup(entropy, 8), check);
    ValueOfUngroup(entropy, 8);
    ValueOfLowBits(digest(entropy)[0] / 16, CHECK_BITS);
  }

  /**
   * The twelve indexes, read as one number to base 2048, are the entropy to base 256 followed by the hash byte's top four
   * bits. So the last word holds the last seven bits of the entropy and those four.
   */
  lemma PrintedNumber(entropy: seq<nat>, list: seq<string>, digest: Digest)
    requires IsEntropy(entropy) && IsWordList(list) && digest(entropy) != []
    ensures var indexes := Indexes(list, Printed(entropy, list, digest));
            && |indexes| == 12 && (forall i | 0 <= i < 12 :: indexes[i] < 2048)
            && BigEndian(indexes, 2048) == PhraseNumber(entropy, digest(entropy)[0])
            && indexes[11] % 16 == digest(entropy)[0] / 16 % 16 && indexes[11] / 16 == entropy[15] % 128
            && (digest(entropy)[0] < 256 ==> indexes[11] % 16 == digest(entropy)[0] / 16)
  {
    hide Ungroup, Groups, Times, Pow2, Printed, BitsOf, ValueOf;
    var indexes := Indexes(list, Printed(entropy, list, digest));
    Sizes();
    PrintedBits(entropy, list, digest);
    BitsNumber(entropy, digest);
    ValueOfUngroup(indexes, WORD_BITS);
    LastDigits(indexes[11], BigEndian(indexes[..11], 2048), entropy[15], BigEndian(entropy[..15], 256), digest(entropy)[0] / 16 % 16);
  }

  lemma LastDigits(index: nat, front: nat, last: nat, rest: nat, check: nat)
    requires index < 2048 && last < 256 && check < 16 && front * 2048 + index == (rest * 256 + last) * 16 + check
    ensures index % 16 == check && index / 16 == last % 128
  {
  }

  /** A phrase is accepted exactly when it is twelve listed words whose number is that of some sixteen bytes and their hash. */
  lemma AcceptedIffNumber(phrase: string, list: seq<string>, digest: Digest)
    requires IsWordList(list)
    ensures Valid(phrase, list, digest)
            <==> |WordsOf(phrase)| == 12 && (forall i | 0 <= i < 12 :: WordsOf(phrase)[i] in list)
                 && exists entropy | IsEntropy(entropy) && digest(entropy) != [] ::
                      BigEndian(Indexes(list, WordsOf(phrase)), 2048) == PhraseNumber(entropy, digest(entropy)[0])
  {
    hide Ungroup, Groups, Times, Pow2, Indexes, WordsOf, Printed, BitsOf, ValueOf, BigEndian, PhraseNumber;
    var words := WordsOf(phrase);
    AcceptedIffPrinted(phrase, list, digest);
    if entropy :| IsEntropy(entropy) && digest(entropy) != [] && words == Printed(entropy, list, digest) {
      PrintedBits(entropy, list, digest);
      PrintedNumber(entropy, list, digest);
    }
    if |words| == 12 && (forall i | 0 <= i < 12 :: words[i] in list) {
      if entropy :| IsEntropy(entropy) && digest(entropy) != []
                    && BigEndian(Indexes(list, words), 2048) == PhraseNumber(entropy, digest(entropy)[0]) {
        NumberFixesWords(words, entropy, list, digest);
      }
    }
  }

  lemma NumberFixesWords(words: seq<string>, entropy: seq<nat>, list: seq<string>, digest: Digest)
    requires IsWordList(list) && |words| == WORDS && forall i | 0 <= i < WORDS :: words[i] in list
    requires IsEntropy(entropy) && digest(entropy) != []
    requires BigEndian(Indexes(list, words), 2048) == PhraseNumber(entropy, digest(entropy)[0])
    ensures words == Printed(entropy, list, digest)
  {
    hide Ungroup, Groups, Times, Pow2, BitsOf, ValueOf, BigEndian, PhraseNumber;
    var indexes, bits := Indexes(list, words), PhraseBits(entropy, Checksum(entropy, digest).value);
    Sizes();
    forall i | 0 <= i < WORDS ensures indexes[i] < LIST_SIZE && list[indexes[i]] == words[i] {
      assert words[i] in list;
    }
    BitsNumber(entropy, digest);
    ValueOfUngroup(indexes, WORD_BITS);
    CheckIsTail(entropy, Checksum(entropy, digest).value);
    SameValueSameBits(Ungroup(indexes, WORD_BITS), bits);
    GroupsOfUngroup(indexes, WORD_BITS);
    assert WordsAt(list, indexes) == words;
  }
}
