/**
 * The word sources of src/wording.rs. A producer answers "the n-th word of
 * level l" with a word, the end of the level, or the end of the game. Neither
 * producer changes when asked, so both are modelled as values and `NextWord`
 * as a function.
 */
module Wording {
  import opened Text

  /** The built-in dictionary of `CodeDict`: fourteen words. */
  const DICTIONARY: seq<string> :=
    ["jj", "ff", "jj", "ff", "jjj", "fff", "jfj", "fjj", "ffj", "jff", "ciao", "belli", "come", "state"]

  /** What a producer hands the game: the next word, or the end of a level or of the game. */
  datatype Enemies = Word(word: string) | LevelComplete | GameComplete

  /** The two implementations of `WordProducer`. */
  datatype WordProducer = CodeDict | KTouchParser(lessons: seq<seq<string>>)

  /**
   * `CodeDict::next_word`: three levels of ten dictionary words each. The
   * source indexes modulo the dictionary's length, which with fourteen
   * entries and n below ten is the entry n itself.
   */
  function CodeDictNextWord(l: nat, n: nat): (e: Enemies)
    ensures l > 2 ==> e == GameComplete
    ensures l <= 2 && n < 10 ==> e == Word(DICTIONARY[n])
    ensures l <= 2 && n >= 10 ==> e == LevelComplete
  {
    if l > 2 then GameComplete
    else if n < 10 then Word(DICTIONARY[n % |DICTIONARY|])
    else LevelComplete
  }

  /** `KTouchParser::next_word`: lesson l is level l, its words in order. */
  function KTouchNextWord(lessons: seq<seq<string>>, l: nat, n: nat): Enemies {
    if l < |lessons| then
      if n < |lessons[l]| then Word(lessons[l][n]) else LevelComplete
    else GameComplete
  }

  /** `WordProducer::next_word` for either producer. */
  function NextWord(p: WordProducer, l: nat, n: nat): Enemies {
    match p
    case CodeDict => CodeDictNextWord(l, n)
    case KTouchParser(lessons) => KTouchNextWord(lessons, l, n)
  }

  /** The answers for n = 0, 1, ..., count - 1 at level l. */
  function Produced(p: WordProducer, l: nat, count: nat): (r: seq<Enemies>)
    ensures |r| == count
  {
    seq(count, n requires 0 <= n < count => NextWord(p, l, n))
  }

  function AsEnemies(words: seq<string>): seq<Enemies> {
    seq(|words|, i requires 0 <= i < |words| => Word(words[i]))
  }

  /**
   * A lesson level hands out exactly the lesson's words, in order, and then
   * ends; once the lessons run out the game is over.
   */
  lemma KTouchLevel(lessons: seq<seq<string>>, l: nat)
    ensures l < |lessons| ==>
              Produced(KTouchParser(lessons), l, |lessons[l]| + 1) == AsEnemies(lessons[l]) + [LevelComplete]
    ensures l < |lessons| ==>
              forall n: nat | n >= |lessons[l]| :: NextWord(KTouchParser(lessons), l, n) == LevelComplete
    ensures l >= |lessons| ==> forall n: nat :: NextWord(KTouchParser(lessons), l, n) == GameComplete
  {
    if l < |lessons| {
      var got := Produced(KTouchParser(lessons), l, |lessons[l]| + 1);
      var want := AsEnemies(lessons[l]) + [LevelComplete];
      forall n | 0 <= n < |got| ensures got[n] == want[n] {
        if n < |lessons[l]| {
          assert want[n] == Word(lessons[l][n]);
        }
      }
    }
  }

  /**
   * Each of the three dictionary levels hands out the first ten dictionary
   * words and then ends; the fourth level is the end of the game.
   */
  lemma CodeDictLevel(l: nat)
    ensures l <= 2 ==> Produced(CodeDict, l, 11) == AsEnemies(DICTIONARY[..10]) + [LevelComplete]
    ensures l > 2 ==> forall n: nat :: NextWord(CodeDict, l, n) == GameComplete
  {
    if l <= 2 {
      var got := Produced(CodeDict, l, 11);
      var want := AsEnemies(DICTIONARY[..10]) + [LevelComplete];
      forall n | 0 <= n < 11 ensures got[n] == want[n] {
        if n < 10 {
          assert want[n] == Word(DICTIONARY[n]);
        }
      }
    }
  }

  /**
   * The lesson list that `KTouchParser::new` builds from the texts of the
   * course's lesson elements: the first three, each split on whitespace.
   */
  function Lessons(texts: seq<string>): (ls: seq<seq<string>>)
    ensures |ls| == if |texts| < 3 then |texts| else 3
    ensures forall i, j | 0 <= i < |ls| && 0 <= j < |ls[i]| :: |ls[i][j]| > 0 && NoWhitespace(ls[i][j])
  {
    var kept := if |texts| < 3 then texts else texts[..3];
    seq(|kept|, i requires 0 <= i < |kept| => Words(kept[i]))
  }

  /** Writing each lesson back as space-separated text and shaping again changes nothing. */
  lemma LessonsNormalised(texts: seq<string>)
    ensures var ls := Lessons(texts);
            Lessons(seq(|ls|, i requires 0 <= i < |ls| => Join(ls[i], " "))) == ls
  {
    var ls := Lessons(texts);
    var again := seq(|ls|, i requires 0 <= i < |ls| => Join(ls[i], " "));
    forall i | 0 <= i < |ls| ensures Words(again[i]) == ls[i] {
      forall w | w in ls[i] ensures |w| > 0 && NoWhitespace(w) {
        var j :| 0 <= j < |ls[i]| && ls[i][j] == w;
      }
      WordsOfJoin(ls[i]);
    }
  }

  /** Lesson l of the producer built from `texts` is the words of text l. */
  lemma LessonsWords(texts: seq<string>, l: nat, n: nat)
    requires l < |texts| && l < 3
    ensures NextWord(KTouchParser(Lessons(texts)), l, n) ==
              if n < |Words(texts[l])| then Word(Words(texts[l])[n]) else LevelComplete
  {
  }
}
