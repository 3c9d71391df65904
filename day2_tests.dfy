/** Day 2's `test_parse`, on the line of the puzzle's first game. */
module Day2Tests {
  import opened Wrappers
  import opened Text
  import opened Day2Games

  /** Three pieces joined: the first, the separator, and the other two joined. */
  lemma JoinThree(a: string, b: string, c: string, sep: char)
    ensures Join([a, b, c], sep) == a + [sep] + b + [sep] + c
  {
    assert [a, b, c][1..] == [b, c] && [b, c][1..] == [c];
    assert Join([c], sep) == c;
    assert Join([b, c], sep) == b + [sep] + c;
  }

  /** Two pieces joined: the first, the separator and the second. */
  lemma JoinTwo(a: string, b: string, sep: char)
    ensures Join([a, b], sep) == a + [sep] + b
  {
    assert [a, b][1..] == [b];
  }

  /** The rounds of the first game, draw by draw. */
  function FirstRounds(): seq<seq<Draw>> {
    [[Draw(3, Blue), Draw(4, Red)], [Draw(1, Red), Draw(2, Green), Draw(6, Blue)], [Draw(2, Green)]]
  }

  /** A draw of fewer than ten cubes prints as a space, its digit, a space and its colour. */
  lemma SmallDrawText(d: Draw)
    requires d.count < 10
    ensures DrawText(d) == [' ', ('0' as int + d.count) as char, ' '] + ColorName(d.color)
  {
  }

  /** Draws printed one by one. */
  lemma DrawTexts(ds: seq<Draw>, ts: seq<string>)
    requires |ts| == |ds| && forall i :: 0 <= i < |ds| ==> DrawText(ds[i]) == ts[i]
    ensures seq(|ds|, i requires 0 <= i < |ds| => DrawText(ds[i])) == ts
  {
  }

  /** "3 blue, 4 red". */
  lemma RoundText0(ds: seq<Draw>)
    requires ds == [Draw(3, Blue), Draw(4, Red)]
    ensures RoundText(ds) == " 3 blue, 4 red"
  {
    SmallDrawText(ds[0]);
    SmallDrawText(ds[1]);
    DrawTexts(ds, [" 3 blue", " 4 red"]);
    JoinTwo(" 3 blue", " 4 red", ',');
  }

  /** "1 red, 2 green, 6 blue". */
  lemma RoundText1(ds: seq<Draw>)
    requires ds == [Draw(1, Red), Draw(2, Green), Draw(6, Blue)]
    ensures RoundText(ds) == " 1 red, 2 green, 6 blue"
  {
    SmallDrawText(ds[0]);
    SmallDrawText(ds[1]);
    SmallDrawText(ds[2]);
    DrawTexts(ds, [" 1 red", " 2 green", " 6 blue"]);
    JoinThree(" 1 red", " 2 green", " 6 blue", ',');
  }

  /** "2 green". */
  lemma RoundText2(ds: seq<Draw>)
    requires ds == [Draw(2, Green)]
    ensures RoundText(ds) == " 2 green"
  {
    SmallDrawText(ds[0]);
    DrawTexts(ds, [" 2 green"]);
  }

  /** The first game prints as its rounds' texts after "Game 1:", separated by semicolons. */
  lemma FirstGameText(rounds: seq<seq<Draw>>)
    requires rounds == FirstRounds()
    ensures GameText(1, rounds) == "Game 1:" + " 3 blue, 4 red" + ";" + " 1 red, 2 green, 6 blue" + ";" + " 2 green"
  {
    RoundText0(rounds[0]);
    RoundText1(rounds[1]);
    RoundText2(rounds[2]);
    assert RoundTexts(rounds) == [" 3 blue, 4 red", " 1 red, 2 green, 6 blue", " 2 green"];
    JoinThree(" 3 blue, 4 red", " 1 red, 2 green, 6 blue", " 2 green", ';');
    assert NatToString(1) == "1";
  }

  /** The line of `test_parse`, "Game 1: 3 blue, 4 red; 1 red, 2 green, 6 blue; 2 green", written as its head and rounds. */
  const FirstLine := "Game 1:" + " 3 blue, 4 red" + ";" + " 1 red, 2 green, 6 blue" + ";" + " 2 green"

  /** The rounds of the first game tally to 4 red and 3 blue; 1 red, 2 green and 6 blue; 2 green. */
  lemma FirstTallies(rounds: seq<seq<Draw>>)
    requires rounds == FirstRounds()
    ensures Tallies(rounds) == [Colors(4, 0, 3), Colors(1, 2, 6), Colors(0, 2, 0)]
  {
    var r0, r1, r2 := rounds[0], rounds[1], rounds[2];
    assert Tally(r0) == Colors(4, 0, 3) by {
      assert r0[..1] == [Draw(3, Blue)] && r0[..1][..0] == [];
    }
    assert Tally(r1) == Colors(1, 2, 6) by {
      assert r1[..2] == [Draw(1, Red), Draw(2, Green)] && r1[..2][..1] == [Draw(1, Red)] && r1[..1][..0] == [];
    }
    assert Tally(r2) == Colors(0, 2, 0) by {
      assert r2[..0] == [];
    }
  }

  /** `test_parse`: game 1 with the rounds 4 red and 3 blue; 1 red, 2 green and 6 blue; 2 green. */
  lemma ParseFirstGame(line: string)
    requires line == FirstLine
    ensures ParseGame(line) == Some(Game(1, [Colors(4, 0, 3), Colors(1, 2, 6), Colors(0, 2, 0)]))
  {
    var rounds := FirstRounds();
    FirstGameText(rounds);
    FirstTallies(rounds);
    ParseGameText(1, rounds);
  }
}
