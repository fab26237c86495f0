/**
 * The typing game of src/lib.rs (`Game`): words fall as enemies; typing the
 * first letter of one picks it as the target, and each further correct
 * letter strips one letter off the target until it is gone. A word producer
 * decides which word comes next and when a level or the game ends.
 *
 * The wall clock ("two seconds have passed since the last enemy") and the
 * random horizontal position of a new enemy are parameters of `Update`.
 */
module Play {
  import opened Wrappers
  import opened Events
  import opened Wording

  /** A falling word: position, speed and the letters still to type. */
  datatype Enemy = Enemy(pos_x: real, pos_y: real, speed: real, word: string, font_size: real)

  predicate StartsWith(e: Enemy, ch: char) {
    |e.word| > 0 && e.word[0] == ch
  }

  /** The target, if any, still has letters to type. */
  predicate Alive(target: Option<Enemy>) {
    target.None? || |target.value.word| > 0
  }

  /** Index of the first enemy whose word starts with `ch`, or `|enemies|`. */
  function FirstMatch(enemies: seq<Enemy>, ch: char): (i: nat)
    ensures i <= |enemies|
    ensures i < |enemies| ==> StartsWith(enemies[i], ch)
    ensures forall j | 0 <= j < i :: !StartsWith(enemies[j], ch)
  {
    if enemies == [] || StartsWith(enemies[0], ch) then 0 else 1 + FirstMatch(enemies[1..], ch)
  }

  /** The enemy with its first letter typed. */
  function Hit(e: Enemy): Enemy
    requires |e.word| > 0
  {
    e.(word := e.word[1..])
  }

  /** A target whose word is used up is gone. */
  function Finished(target: Option<Enemy>): Option<Enemy> {
    if target.Some? && target.value.word == [] then None else target
  }

  /** Enemies and target after one typed character. */
  datatype Typing = Typing(enemies: seq<Enemy>, target: Option<Enemy>)

  /** What `text_input_event` does with `ch`, as a function of the state before. */
  function Typed(enemies: seq<Enemy>, target: Option<Enemy>, ch: char): Typing {
    if target.Some? then
      var t := if StartsWith(target.value, ch) then Some(Hit(target.value)) else target;
      Typing(enemies, Finished(t))
    else
      var i := FirstMatch(enemies, ch);
      if i < |enemies| then Typing(enemies[..i] + enemies[i + 1..], Finished(Some(Hit(enemies[i]))))
      else Typing(enemies, None)
  }

  /** Number of enemies still alive, the target included. */
  function Remaining(t: Typing): nat {
    |t.enemies| + if t.target.Some? then 1 else 0
  }

  /** An enemy drifting one frame downwards, faster at higher levels. */
  function Drifted(e: Enemy, level: nat): Enemy {
    e.(pos_y := e.pos_y + e.speed * (1 + level) as real)
  }

  function DriftedAll(enemies: seq<Enemy>, level: nat): seq<Enemy> {
    seq(|enemies|, i requires 0 <= i < |enemies| => Drifted(enemies[i], level))
  }

  function DriftedTarget(target: Option<Enemy>, level: nat): Option<Enemy> {
    if target.Some? then Some(Drifted(target.value, level)) else None
  }

  /** Number of levels a producer has before it reports the end of the game. */
  function LevelCount(p: WordProducer): nat {
    match p
    case CodeDict => 3
    case KTouchParser(lessons) => |lessons|
  }

  /** Number of words of level l. */
  function LevelLength(p: WordProducer, l: nat): nat {
    if l >= LevelCount(p) then 0
    else match p
      case CodeDict => 10
      case KTouchParser(lessons) => |lessons[l]|
  }

  /** Both producers answer by the same rule: game over, a word, or the end of the level. */
  lemma NextWordShape(p: WordProducer, l: nat, n: nat)
    ensures NextWord(p, l, n).GameComplete? <==> l >= LevelCount(p)
    ensures NextWord(p, l, n).Word? <==> l < LevelCount(p) && n < LevelLength(p, l)
    ensures NextWord(p, l, n).LevelComplete? <==> l < LevelCount(p) && n >= LevelLength(p, l)
  {
  }

  /** The fields of a game that its events change. */
  datatype Frame = Frame(goto_state: Option<States>, level: nat, sequence: nat,
                         enemies: seq<Enemy>, target: Option<Enemy>)

  /** The game's own invariant, on a frame: see `Game.Valid`. */
  predicate Progress(f: Frame, p: WordProducer) {
    Alive(f.target) && f.level <= LevelCount(p) && f.sequence <= LevelLength(p, f.level)
  }

  /**
   * One frame of `update`: everything drifts, then the producer's answer for
   * word `sequence` of `level` ends the game, ends the level or spawns a word,
   * the first two only once no enemy is left.
   */
  function Tick(f: Frame, p: WordProducer, font_size: real, elapsed: bool, spawnX: real): Frame {
    var moved := f.(enemies := DriftedAll(f.enemies, f.level), target := DriftedTarget(f.target, f.level));
    var clear := f.enemies == [] && f.target == None;
    match NextWord(p, f.level, f.sequence)
    case GameComplete => if clear then moved.(goto_state := Some(Victory)) else moved
    case LevelComplete => if clear then moved.(level := f.level + 1, sequence := 0) else moved
    case Word(w) =>
      if elapsed || f.enemies == [] then
        moved.(enemies := moved.enemies + [Enemy(spawnX, -1.0, 0.5, w, font_size)], sequence := f.sequence + 1)
      else moved
  }

  /** A frame keeps the game's invariant, so any run of frames does. */
  lemma TickKeepsProgress(f: Frame, p: WordProducer, font_size: real, elapsed: bool, spawnX: real)
    requires Progress(f, p)
    ensures Progress(Tick(f, p, font_size, elapsed, spawnX), p)
  {
    NextWordShape(p, f.level, f.sequence);
    NextWordShape(p, f.level + 1, 0);
  }

  /**
   * Once the producer has ended the game and the screen is clear, every
   * further frame asks for the victory screen.
   */
  lemma TickAtEnd(f: Frame, p: WordProducer, font_size: real, elapsed: bool, spawnX: real)
    requires f.level >= LevelCount(p) && f.enemies == [] && f.target == None
    ensures Tick(f, p, font_size, elapsed, spawnX) == f.(goto_state := Some(Victory))
  {
    NextWordShape(p, f.level, f.sequence);
  }

  class Game {
    /** The transition requested and not yet taken. */
    var goto_state: Option<States>
    var level: nat
    var enemies: seq<Enemy>
    /** The enemy being typed. */
    var target: Option<Enemy>
    /** Position of the next word within the level. */
    var sequence: nat
    const producer: WordProducer
    const font_size: real

    /**
     * The target always has letters left, the level never passes the
     * producer's last, and the position never passes the level's end.
     */
    ghost predicate Valid()
      reads this
    {
      Progress(Snapshot(), producer)
    }

    ghost function Snapshot(): Frame
      reads this
    {
      Frame(goto_state, level, sequence, enemies, target)
    }

    constructor (producer: WordProducer, font_size: real)
      ensures Valid()
      ensures this.producer == producer && this.font_size == font_size
      ensures goto_state == None && level == 0 && sequence == 0 && enemies == [] && target == None
    {
      this.producer := producer;
      this.font_size := font_size;
      goto_state := None;
      level := 0;
      sequence := 0;
      enemies := [];
      target := None;
    }

    /**
     * `update`: moves every enemy and the target down, then asks the producer
     * for word `sequence` of `level`. The end of the game and the end of a
     * level take effect only once no enemy is left; a word is spawned at
     * (`spawnX`, -1) when two seconds have passed (`elapsed`) or no enemy is
     * on the screen.
     */
    method Update(elapsed: bool, spawnX: real)
      requires Valid()
      modifies this
      ensures Valid()
      ensures Snapshot() == Tick(old(Snapshot()), producer, font_size, elapsed, spawnX)
      ensures target == DriftedTarget(old(target), old(level))
      ensures var drifted := DriftedAll(old(enemies), old(level));
              var clear := old(enemies) == [] && old(target) == None;
              match NextWord(producer, old(level), old(sequence))
              case GameComplete =>
                enemies == drifted && level == old(level) && sequence == old(sequence)
                && goto_state == if clear then Some(Victory) else old(goto_state)
              case LevelComplete =>
                enemies == drifted && goto_state == old(goto_state)
                && (if clear then level == old(level) + 1 && sequence == 0
                    else level == old(level) && sequence == old(sequence))
              case Word(w) =>
                level == old(level) && goto_state == old(goto_state)
                && if elapsed || old(enemies) == [] then
                     enemies == drifted + [Enemy(spawnX, -1.0, 0.5, w, font_size)] && sequence == old(sequence) + 1
                   else
                     enemies == drifted && sequence == old(sequence)
    {
      for i := 0 to |enemies|
        invariant level == old(level) && sequence == old(sequence)
        invariant goto_state == old(goto_state) && target == old(target)
        invariant |enemies| == |old(enemies)|
        invariant forall j | 0 <= j < i :: enemies[j] == Drifted(old(enemies)[j], level)
        invariant forall j | i <= j < |enemies| :: enemies[j] == old(enemies)[j]
      {
        enemies := enemies[i := Drifted(enemies[i], level)];
      }
      if target.Some? {
        target := Some(Drifted(target.value, level));
      }
      assert target == DriftedTarget(old(target), old(level));
      assert enemies == DriftedAll(old(enemies), old(level));
      NextWordShape(producer, level, sequence);
      match NextWord(producer, level, sequence) {
        case GameComplete =>
          if enemies == [] && target.None? {
            goto_state := Some(Victory);
          }
        case LevelComplete =>
          if enemies == [] && target.None? {
            level := level + 1;
            sequence := 0;
          }
        case Word(w) =>
          if elapsed || enemies == [] {
            enemies := enemies + [Enemy(spawnX, -1.0, 0.5, w, font_size)];
            sequence := sequence + 1;
          }
      }
    }

    /**
     * `text_input_event`: with a target, a matching letter is typed off it;
     * without one, the first enemy in list order starting with `ch` is
     * taken out of the list and becomes the target with that letter typed.
     * A target with no letters left is gone.
     */
    method TextInput(ch: char)
      requires Valid()
      modifies this
      ensures Valid()
      ensures Typing(enemies, target) == Typed(old(enemies), old(target), ch)
      ensures goto_state == old(goto_state) && level == old(level) && sequence == old(sequence)
    {
      if target.Some? {
        var enemy := target.value;
        if |enemy.word| > 0 && enemy.word[0] == ch {
          target := Some(enemy.(word := enemy.word[1..]));
        }
      } else {
        var i := 0;
        while i != |enemies|
          invariant 0 <= i <= |enemies| && enemies == old(enemies) && target == None
          invariant forall j | 0 <= j < i :: !StartsWith(enemies[j], ch)
          decreases |enemies| - i
        {
          if |enemies[i].word| > 0 && enemies[i].word[0] == ch {
            var enemy := enemies[i];
            enemies := enemies[..i] + enemies[i + 1..];
            target := Some(enemy.(word := enemy.word[1..]));
            FirstMatchAt(old(enemies), ch, i);
            break;
          }
          i := i + 1;
        }
      }
      if target.Some? && target.value.word == [] {
        target := None;
      }
    }

    /** `key_down_event`: Escape asks for the pause menu instead of quitting. */
    method KeyDown(k: Key)
      modifies this
      ensures goto_state == if k == Escape then Some(Pause) else old(goto_state)
      ensures level == old(level) && sequence == old(sequence)
      ensures enemies == old(enemies) && target == old(target)
    {
      if k == Escape {
        goto_state := Some(Pause);
      }
    }

    /** `next_state`: hands out the pending transition once. */
    method NextState() returns (s: Option<States>)
      modifies this
      ensures s == old(goto_state) && goto_state == None
      ensures level == old(level) && sequence == old(sequence)
      ensures enemies == old(enemies) && target == old(target)
    {
      s := goto_state;
      goto_state := None;
    }
  }

  lemma {:induction false} FirstMatchAt(enemies: seq<Enemy>, ch: char, i: nat)
    requires i < |enemies| && StartsWith(enemies[i], ch)
    requires forall j | 0 <= j < i :: !StartsWith(enemies[j], ch)
    ensures FirstMatch(enemies, ch) == i
  {
    if i > 0 {
      assert !StartsWith(enemies[0], ch);
      FirstMatchAt(enemies[1..], ch, i - 1);
    }
  }

  // ---------------------------------------------------------------------
  // Properties of typing
  // ---------------------------------------------------------------------

  /**
   * Without a target, the first enemy in list order that starts with `ch`
   * leaves the list, which otherwise keeps its order, and becomes the target
   * with one letter less; if no enemy starts with `ch` nothing changes.
   */
  lemma TypedPicks(enemies: seq<Enemy>, ch: char)
    ensures var r := Typed(enemies, None, ch);
            (exists i | 0 <= i < |enemies| :: StartsWith(enemies[i], ch)) ==>
              exists i | 0 <= i < |enemies| ::
                StartsWith(enemies[i], ch) && (forall j | 0 <= j < i :: !StartsWith(enemies[j], ch))
                && r.enemies == enemies[..i] + enemies[i + 1..]
                && r.target == (if |enemies[i].word| == 1 then None else Some(Hit(enemies[i])))
    ensures (forall i | 0 <= i < |enemies| :: !StartsWith(enemies[i], ch)) ==>
              Typed(enemies, None, ch) == Typing(enemies, None)
  {
    var i := FirstMatch(enemies, ch);
    if i < |enemies| {
      assert |Hit(enemies[i]).word| == |enemies[i].word| - 1;
    }
  }

  /**
   * With a live target, a wrong letter changes nothing and a right one
   * removes exactly the target's first letter; the enemy list is never
   * touched.
   */
  lemma TypedTarget(enemies: seq<Enemy>, target: Enemy, ch: char)
    requires |target.word| > 0
    ensures var r := Typed(enemies, Some(target), ch);
            r.enemies == enemies
            && (target.word[0] != ch ==> r.target == Some(target))
            && (target.word[0] == ch ==>
                  r.target == if |target.word| == 1 then None else Some(target.(word := target.word[1..])))
  {
  }

  /** After any typed character the target still has letters, and no enemy appears. */
  lemma TypedKeepsInvariant(enemies: seq<Enemy>, target: Option<Enemy>, ch: char)
    requires Alive(target)
    ensures Alive(Typed(enemies, target, ch).target)
    ensures Remaining(Typed(enemies, target, ch)) <= Remaining(Typing(enemies, target))
  {
    var i := FirstMatch(enemies, ch);
    if target.None? && i < |enemies| {
      assert |enemies[..i] + enemies[i + 1..]| == |enemies| - 1;
    }
  }

  /** Typing "c", "a", "t" at a lone enemy "cat" clears the screen. */
  lemma TypingCat(e: Enemy)
    requires e.word == "cat"
    ensures var s1 := Typed([e], None, 'c');
            var s2 := Typed(s1.enemies, s1.target, 'a');
            var s3 := Typed(s2.enemies, s2.target, 't');
            s3 == Typing([], None)
  {
    var s1 := Typed([e], None, 'c');
    assert FirstMatch([e], 'c') == 0;
    assert [e][..0] + [e][1..] == [];
    assert s1 == Typing([], Some(e.(word := "at")));
    var s2 := Typed(s1.enemies, s1.target, 'a');
    assert s2 == Typing([], Some(e.(word := "t")));
  }

  // ---------------------------------------------------------------------
  // Properties of level progress
  // ---------------------------------------------------------------------

  /** The game reports victory only after the producer's last level. */
  lemma VictoryOnlyAtEnd(p: WordProducer, level: nat, sequence: nat)
    requires NextWord(p, level, sequence).GameComplete?
    ensures level >= LevelCount(p)
  {
    NextWordShape(p, level, sequence);
  }

  /** Spawning is the only way `sequence` grows, and it never passes the level's length. */
  lemma SpawnWithinLevel(p: WordProducer, level: nat, sequence: nat)
    requires NextWord(p, level, sequence).Word?
    ensures sequence + 1 <= LevelLength(p, level) && level < LevelCount(p)
  {
    NextWordShape(p, level, sequence);
  }
}
