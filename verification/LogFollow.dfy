/** pkg/provider/logfollow.go: a log that can only be read whole, followed line
    by line with the last stamp as a cursor. */
module LogFollow {
  import opened Wrappers
  import opened Text
  import opened Ordering
  import opened LogCursor

  /** bytes.Split on newlines: always one piece more than there are newlines. */
  function Split(raw: string): (r: seq<string>)
    ensures |r| > 0
  {
    if raw == [] then [[]]
    else if raw[0] == '\n' then [[]] + Split(raw[1..])
    else
      var rest := Split(raw[1..]);
      [[raw[0]] + rest[0]] + rest[1..]
  }

  /** Where the first space is, or the length when there is none. */
  function SpaceAt(line: string): (i: nat)
    ensures i <= |line|
    ensures i < |line| ==> line[i] == ' '
    ensures forall j :: 0 <= j < i ==> line[j] != ' '
  {
    if line == [] || line[0] == ' ' then 0
    else
      assert forall j :: 0 < j < |line| ==> line[j] == line[1..][j - 1];
      1 + SpaceAt(line[1..])
  }

  /** The stamp a line starts with; empty when there is none that parses. */
  function StampOf(valid: string -> bool): string -> string {
    (line: string) =>
      var i := SpaceAt(line);
      if i == |line| || i == 0 || !valid(line[..i]) then "" else line[..i]
  }

  /** The stamp is what comes before the first space, when it parses. */
  lemma StampIs(valid: string -> bool, line: string, head: string, rest: string)
    requires ' ' !in head
    ensures StampOf(valid)(head + " " + rest) == if head != "" && valid(head) then head else ""
    ensures ' ' !in line ==> StampOf(valid)(line) == ""
  {
    FirstSpace(head, rest);
    assert (head + " " + rest)[..|head|] == head;
  }

  /** The lines that can be placed at all. */
  function Stamped(stamp: string -> string, lines: seq<string>): seq<string> {
    if lines == [] then []
    else
      var before, last := Stamped(stamp, lines[..|lines| - 1]), lines[|lines| - 1];
      if last != [] && stamp(last) != "" then before + [last] else before
  }

  lemma {:induction false} StampedAre(stamp: string -> string, lines: seq<string>)
    ensures AllStamped(stamp, Stamped(stamp, lines))
    ensures forall x :: x in Stamped(stamp, lines) <==> x in lines && x != [] && stamp(x) != ""
  {
    if lines != [] {
      StampedAre(stamp, lines[..|lines| - 1]);
      assert lines == lines[..|lines| - 1] + [lines[|lines| - 1]];
    }
  }

  function Placed(stamp: string -> string, raw: string): seq<string> {
    Stamped(stamp, Split(raw))
  }

  function AllPlaced(stamp: string -> string, answers: seq<string>): (r: seq<seq<string>>)
    ensures |r| == |answers|
    ensures forall i :: 0 <= i < |answers| ==> r[i] == Placed(stamp, answers[i])
  {
    seq(|answers|, i requires 0 <= i < |answers| => Placed(stamp, answers[i]))
  }

  /** The lines that come after the cursor, and the new cursor. */
  method LinesAfter(stamp: string -> string, raw: string, cursor: string) returns (lines: seq<string>, newest: string)
    ensures lines == Past(stamp, cursor, Placed(stamp, raw))
    ensures newest == Latest(stamp, cursor, lines)
  {
    lines, newest := [], cursor;
    var all := Split(raw);
    for i := 0 to |all|
      invariant lines == Past(stamp, cursor, Stamped(stamp, all[..i]))
      invariant newest == Latest(stamp, cursor, lines)
    {
      assert all[..i + 1][..i] == all[..i];
      var line := all[i];
      if line == [] {
        continue;
      }
      if stamp(line) == "" {
        continue;
      }
      PastNext(stamp, cursor, Stamped(stamp, all[..i]), line);
      if cursor != "" && StrLe(stamp(line), cursor) {
        continue;
      }
      LatestNext(stamp, cursor, lines, line);
      lines := lines + [line];
      if StrLt(newest, stamp(line)) {
        newest := stamp(line);
      }
    }
    assert all[..|all|] == all;
  }

  // ----- rendering -----

  function Shown(line: string, keep: bool): string {
    if keep || SpaceAt(line) == |line| || SpaceAt(line) == 0 then line else line[SpaceAt(line) + 1..]
  }

  /** Without its stamp a line is what follows the first space, if anything comes
      before it; a line with no stamp to drop is shown whole. */
  lemma ShownIs(line: string, stamp: string, rest: string)
    ensures Shown(line, true) == line
    ensures stamp != "" && ' ' !in stamp ==> Shown(stamp + " " + rest, false) == rest
    ensures ' ' !in line || line[0] == ' ' ==> Shown(line, false) == line
  {
    if stamp != "" && ' ' !in stamp {
      FirstSpace(stamp, rest);
      assert (stamp + " " + rest)[|stamp| + 1..] == rest;
    }
  }

  lemma FirstSpace(stamp: string, rest: string)
    requires ' ' !in stamp
    ensures SpaceAt(stamp + " " + rest) == |stamp|
  {
    var line := stamp + " " + rest;
    assert line[|stamp|] == ' ';
    assert forall i :: 0 <= i < |stamp| ==> line[i] == stamp[i];
  }

  function Rendered(lines: seq<string>, keep: bool): string {
    if lines == [] then "" else Rendered(lines[..|lines| - 1], keep) + (Shown(lines[|lines| - 1], keep) + "\n")
  }

  method Render(lines: seq<string>, keep: bool) returns (out: string)
    ensures out == Rendered(lines, keep)
  {
    out := "";
    for i := 0 to |lines|
      invariant out == Rendered(lines[..i], keep)
    {
      assert lines[..i + 1][..i] == lines[..i];
      var line := lines[i];
      if !keep {
        var at := SpaceAt(line);
        if 0 < at < |line| {
          line := line[at + 1..];
        }
      }
      out := out + (line + "\n");
    }
    assert lines[..|lines|] == lines;
  }

  lemma RenderedNext(lines: seq<string>, line: string, keep: bool)
    ensures Rendered(lines + [line], keep) == Rendered(lines, keep) + (Shown(line, keep) + "\n")
  {
    assert (lines + [line])[..|lines|] == lines;
  }

  lemma Assoc(x: string, y: string, z: string)
    ensures (x + y) + z == x + (y + z)
  {
  }

  lemma RenderedNone(keep: bool)
    ensures Rendered([], keep) == ""
  {
  }

  lemma {:induction false} RenderedConcat(a: seq<string>, b: seq<string>, keep: bool)
    ensures Rendered(a + b, keep) == Rendered(a, keep) + Rendered(b, keep)
  {
    hide Rendered, Shown;
    if b == [] {
      assert a + b == a;
      RenderedNone(keep);
    } else {
      var init, line := b[..|b| - 1], b[|b| - 1];
      assert b == init + [line] && a + b == (a + init) + [line];
      RenderedConcat(a, init, keep);
      RenderedNext(init, line, keep);
      RenderedNext(a + init, line, keep);
      Assoc(Rendered(a, keep), Rendered(init, keep), Shown(line, keep) + "\n");
    }
  }

  lemma {:induction false} SplitOne(line: string, rest: string)
    requires !HasChar(line, '\n')
    ensures Split(line + "\n" + rest) == [line] + Split(rest)
  {
    if line == [] {
      assert (line + "\n" + rest)[1..] == rest;
    } else {
      var tail := line[1..];
      assert (line + "\n" + rest)[1..] == tail + "\n" + rest;
      assert forall i :: 0 <= i < |tail| ==> tail[i] == line[i + 1];
      SplitOne(tail, rest);
      assert [line[0]] + tail == line;
      assert line[0] != '\n';
    }
  }

  /** A reader splitting what was written gets the lines back, one by one. */
  lemma {:induction false} RenderSplits(lines: seq<string>, rest: string)
    requires forall i :: 0 <= i < |lines| ==> !HasChar(lines[i], '\n')
    ensures Split(Rendered(lines, true) + rest) == lines + Split(rest)
  {
    if lines == [] {
      assert Rendered(lines, true) + rest == rest;
    } else {
      var init, last := lines[..|lines| - 1], lines[|lines| - 1];
      assert Rendered(lines, true) + rest == Rendered(init, true) + (last + "\n" + rest);
      RenderSplits(init, last + "\n" + rest);
      SplitOne(last, rest);
      assert lines == init + [last];
    }
  }

  // ----- following -----

  /** What has been written once these answers were followed, and the cursor. */
  function Written(stamp: string -> string, answers: seq<string>, keep: bool): string {
    Rendered(Flat(After(stamp, AllPlaced(stamp, answers)).sent), keep)
  }

  function Cursor(stamp: string -> string, answers: seq<string>): string {
    After(stamp, AllPlaced(stamp, answers)).last
  }

  lemma FollowNext(stamp: string -> string, answers: seq<string>, raw: string, keep: bool)
    ensures var lines := Past(stamp, Cursor(stamp, answers), Placed(stamp, raw));
            && Cursor(stamp, answers + [raw]) == Latest(stamp, Cursor(stamp, answers), lines)
            && Written(stamp, answers + [raw], keep) == Written(stamp, answers, keep) + Rendered(lines, keep)
  {
    var before := After(stamp, AllPlaced(stamp, answers));
    var lines := Past(stamp, before.last, Placed(stamp, raw));
    assert AllPlaced(stamp, answers + [raw]) == AllPlaced(stamp, answers) + [Placed(stamp, raw)];
    hide Rendered, Past, Latest, Flat, Placed;
    AfterNext(stamp, AllPlaced(stamp, answers), Placed(stamp, raw));
    FlatNext(before.sent, lines);
    RenderedConcat(Flat(before.sent), lines, keep);
  }

  lemma FollowNothing(stamp: string -> string, keep: bool)
    ensures Cursor(stamp, []) == "" && Written(stamp, [], keep) == ""
  {
    assert AllPlaced(stamp, []) == [];
  }

  /** Polls until an answer fails; writes what is new each time. */
  method FollowLogs(stamp: string -> string, polls: seq<Option<string>>, keep: bool)
    returns (out: string, ghost answered: seq<string>)
    ensures |answered| <= |polls|
    ensures forall i :: 0 <= i < |answered| ==> polls[i] == Some(answered[i])
    ensures |answered| < |polls| ==> polls[|answered|] == None
    ensures out == Written(stamp, answered, keep)
  {
    hide *;
    out, answered := "", [];
    var last := "";
    FollowNothing(stamp, keep);
    for i := 0 to |polls|
      invariant |answered| == i && forall j :: 0 <= j < i ==> polls[j] == Some(answered[j])
      invariant last == Cursor(stamp, answered) && out == Written(stamp, answered, keep)
    {
      if polls[i].None? {
        return;
      }
      var raw := polls[i].value;
      var lines, newest := LinesAfter(stamp, raw, last);
      FollowNext(stamp, answered, raw, keep);
      NeverCleared(stamp, last, lines);
      RenderedNone(keep);
      answered := answered + [raw];
      if newest != "" {
        last := newest;
      }
      if |lines| > 0 {
        var more := Render(lines, keep);
        out := out + more;
      }
    }
  }

  lemma NeverCleared(stamp: string -> string, from: string, lines: seq<string>)
    ensures Latest(stamp, from, lines) == "" ==> from == ""
  {
    LatestCovers(stamp, from, lines);
  }

  /** Every line sent is stamped past every line sent by an earlier poll. */
  lemma FollowNeverTwice(stamp: string -> string, answers: seq<string>, j: nat, k: nat, x: string, y: string)
    requires j < k < |answers|
    requires x in After(stamp, AllPlaced(stamp, answers)).sent[j]
    requires y in After(stamp, AllPlaced(stamp, answers)).sent[k]
    ensures StrLt(stamp(x), stamp(y)) && x != y
  {
    forall i | 0 <= i < |answers| ensures AllStamped(stamp, AllPlaced(stamp, answers)[i]) {
      StampedAre(stamp, Split(answers[i]));
    }
    NeverTwice(stamp, AllPlaced(stamp, answers), j, k, x, y);
  }

  // ----- one log, read as it grows -----

  /** What is read once a line is under way is what it will be stamped. */
  ghost predicate Steady(stamp: string -> string) {
    forall a, b :: a <= b && stamp(a) != "" ==> stamp(b) == stamp(a)
  }

  lemma StampSteady(valid: string -> bool)
    ensures Steady(StampOf(valid))
  {
    forall a: string, b: string | a <= b && StampOf(valid)(a) != "" ensures StampOf(valid)(b) == StampOf(valid)(a) {
      SpaceKept(a, b);
      assert a[..SpaceAt(a)] == b[..SpaceAt(a)];
    }
  }

  lemma SpaceKept(a: string, b: string)
    requires a <= b && SpaceAt(a) < |a|
    ensures SpaceAt(b) == SpaceAt(a)
  {
    var i, j := SpaceAt(a), SpaceAt(b);
    assert b[i] == a[i];
    assert j <= i;
    assert b[j] == a[j];
  }

  /** The lines of b are the lines of a, the last perhaps gone on, and more. */
  ghost predicate Continues(stamp: string -> string, a: seq<string>, b: seq<string>) {
    |a| <= |b| && forall i :: 0 <= i < |a| ==> a[i] <= b[i] && stamp(b[i]) == stamp(a[i])
  }

  lemma {:induction false} SplitGrows(a: string, b: string)
    requires a <= b
    ensures |Split(a)| <= |Split(b)|
    ensures Split(a)[..|Split(a)| - 1] <= Split(b)
    ensures Split(a)[|Split(a)| - 1] <= Split(b)[|Split(a)| - 1]
  {
    if a != [] {
      SplitGrows(a[1..], b[1..]);
      var x, y := Split(a[1..]), Split(b[1..]);
      if a[0] == '\n' {
        assert Split(a) == [[]] + x && Split(b) == [[]] + y;
      } else {
        assert x[0] <= y[0] by { if |x| > 1 { assert x[..|x| - 1][0] == x[0]; } }
      }
    }
  }

  lemma StampedConcat(stamp: string -> string, a: seq<string>, b: seq<string>)
    ensures Stamped(stamp, a + b) == Stamped(stamp, a) + Stamped(stamp, b)
  {
    if b == [] {
      assert a + b == a;
    } else {
      assert (a + b)[..|a + b| - 1] == a + b[..|b| - 1];
      StampedConcat(stamp, a, b[..|b| - 1]);
    }
  }

  /** A longer reading of one log continues a shorter one. */
  lemma PlacedContinues(stamp: string -> string, a: string, b: string)
    requires Steady(stamp) && a <= b
    ensures Continues(stamp, Placed(stamp, a), Placed(stamp, b))
  {
    hide Split, Stamped;
    SplitGrows(a, b);
    var x, y := Split(a), Split(b);
    var n := |x| - 1;
    var half, whole, rest := x[n], y[n], y[n + 1..];
    assert x == x[..n] + [half] && y == x[..n] + [whole] + rest;
    StampedConcat(stamp, x[..n], [half]);
    StampedConcat(stamp, x[..n] + [whole], rest);
    StampedConcat(stamp, x[..n], [whole]);
    StampedOne(stamp, half);
    StampedOne(stamp, whole);
  }

  lemma StampedOne(stamp: string -> string, line: string)
    ensures Stamped(stamp, [line]) == if line != [] && stamp(line) != "" then [line] else []
  {
    assert [line][..0] == [];
  }

  /** Everything placeable in the last answer is behind the cursor after it. */
  lemma CursorPastAnswer(stamp: string -> string, answers: seq<seq<string>>)
    requires answers != []
    ensures forall x :: x in answers[|answers| - 1] ==> StrLe(stamp(x), After(stamp, answers).last)
  {
    var before := After(stamp, answers[..|answers| - 1]);
    LatestOfPast(stamp, before.last, answers[|answers| - 1]);
    LatestCovers(stamp, before.last, answers[|answers| - 1]);
  }

  /** So a poll sends nothing of what the one before could place, whether that
      was sent or not, however it has gone on since. */
  lemma OnlyNewSent(stamp: string -> string, answers: seq<seq<string>>)
    requires |answers| > 1 && AllStamped(stamp, answers[|answers| - 2])
    requires Continues(stamp, answers[|answers| - 2], answers[|answers| - 1])
    ensures var seen, now := answers[|answers| - 2], answers[|answers| - 1];
            After(stamp, answers).sent[|answers| - 1] ==
              Past(stamp, After(stamp, answers[..|answers| - 1]).last, now[|seen|..])
  {
    var init, seen, now := answers[..|answers| - 1], answers[|answers| - 2], answers[|answers| - 1];
    var cursor := After(stamp, init).last;
    assert init[|init| - 1] == seen;
    CursorPastAnswer(stamp, init);
    var gone := now[..|seen|];
    assert now == gone + now[|seen|..];
    PastConcat(stamp, cursor, gone, now[|seen|..]);
    hide After, StrLe;
    forall x | x in gone ensures StrLe(stamp(x), cursor) {
      var i :| 0 <= i < |gone| && gone[i] == x;
      assert stamp(x) == stamp(seen[i]) && seen[i] in seen;
    }
    if seen != [] {
      assert StrLe(stamp(seen[0]), cursor) && stamp(seen[0]) != "";
      NothingBeforeEmpty(stamp(seen[0]), cursor);
      PastOfSeen(stamp, cursor, gone);
    }
  }

  lemma NothingBeforeEmpty(a: string, b: string)
    requires StrLe(a, b) && a != ""
    ensures b != ""
  {
  }

  ghost predicate Chain(stamp: string -> string, answers: seq<seq<string>>) {
    && (forall k :: 0 < k < |answers| ==> Continues(stamp, answers[k - 1], answers[k]))
    && forall k :: 0 <= k < |answers| ==> AllStamped(stamp, answers[k])
  }

  function Sent(stamp: string -> string, answers: seq<seq<string>>): seq<string> {
    Flat(After(stamp, answers).sent)
  }

  lemma ChainInit(stamp: string -> string, answers: seq<seq<string>>)
    requires |answers| > 1 && Chain(stamp, answers)
    ensures Chain(stamp, answers[..|answers| - 1])
    ensures Continues(stamp, answers[|answers| - 2], answers[|answers| - 1])
    ensures AllStamped(stamp, answers[|answers| - 2])
  {
    var k := |answers| - 1;
    assert Continues(stamp, answers[k - 1], answers[k]);
  }

  lemma SentNext(stamp: string -> string, answers: seq<seq<string>>)
    requires answers != []
    ensures Sent(stamp, answers) == Sent(stamp, answers[..|answers| - 1]) + After(stamp, answers).sent[|answers| - 1]
  {
    FlatNext(After(stamp, answers[..|answers| - 1]).sent, After(stamp, answers).sent[|answers| - 1]);
  }

  lemma SentFirst(stamp: string -> string, answers: seq<seq<string>>)
    requires |answers| == 1
    ensures Sent(stamp, answers) == answers[0]
  {
    assert answers[..0] == [];
    PastWhole(stamp, "", answers[0]);
    SentNext(stamp, answers);
  }

  /** No more lines are sent than the last answer places; and if as many, each is
      the line itself or a beginning of it. */
  lemma {:induction false} SentWithin(stamp: string -> string, answers: seq<seq<string>>)
    requires answers != [] && Chain(stamp, answers)
    ensures var now := answers[|answers| - 1];
            && |Sent(stamp, answers)| <= |now|
            && (|Sent(stamp, answers)| == |now| ==>
                  forall i :: 0 <= i < |now| ==> Sent(stamp, answers)[i] <= now[i])
  {
    if |answers| == 1 {
      SentFirst(stamp, answers);
    } else {
      var init, seen, now := answers[..|answers| - 1], answers[|answers| - 2], answers[|answers| - 1];
      ChainInit(stamp, answers);
      assert init[|init| - 1] == seen;
      SentWithin(stamp, init);
      SentNext(stamp, answers);
      OnlyNewSent(stamp, answers);
      PastWhole(stamp, After(stamp, init).last, now[|seen|..]);
      PastAre(stamp, After(stamp, init).last, now[|seen|..]);
      hide After, Past, Chain, Sent;
      PastAll(stamp, After(stamp, init).last, now[|seen|..]);
    }
  }

  lemma {:induction false} PastAll(stamp: string -> string, cursor: string, b: seq<string>)
    ensures |Past(stamp, cursor, b)| == |b| ==> Past(stamp, cursor, b) == b
    ensures |Past(stamp, cursor, b)| <= |b|
  {
    if b != [] { PastAll(stamp, cursor, b[..|b| - 1]); }
  }

  /** When all of the last answer was sent, no answer cut a line. */
  lemma {:induction false} WholeMeansGrowing(stamp: string -> string, answers: seq<seq<string>>)
    requires answers != [] && Chain(stamp, answers) && Sent(stamp, answers) == answers[|answers| - 1]
    ensures Growing(answers)
  {
    if |answers| > 1 {
      var init, seen, now := answers[..|answers| - 1], answers[|answers| - 2], answers[|answers| - 1];
      ChainInit(stamp, answers);
      assert init[|init| - 1] == seen;
      SentWithin(stamp, init);
      SentNext(stamp, answers);
      OnlyNewSent(stamp, answers);
      PastAll(stamp, After(stamp, init).last, now[|seen|..]);
      var sent := Sent(stamp, init);
      hide After, Past, Chain, Sent;
      assert |sent| == |seen| && sent == now[..|seen|];
      forall i | 0 <= i < |seen| ensures seen[i] == now[i] {
        assert now[i] == sent[i] <= seen[i] <= now[i];
      }
      assert seen <= now;
      WholeMeansGrowing(stamp, init);
      GrowingMore(answers);
    }
  }

  lemma GrowingMore(answers: seq<seq<string>>)
    requires |answers| > 1 && Growing(answers[..|answers| - 1]) && answers[|answers| - 2] <= answers[|answers| - 1]
    ensures Growing(answers)
  {
    var init := answers[..|answers| - 1];
    forall k | 0 < k < |answers| ensures answers[k - 1] <= answers[k] {
      if k < |init| { assert init[k - 1] <= init[k]; }
    }
  }

  /** When the answers are one log read as it grows, cut wherever, what was
      written is the placeable lines of the last answer, in order, exactly when
      no answer cut a placeable line and at every poll what is new is stamped
      past what was seen. */
  lemma FollowExactlyOnce(valid: string -> bool, answers: seq<string>)
    requires answers != [] && forall k :: 0 < k < |answers| ==> answers[k - 1] <= answers[k]
    ensures var stamp := StampOf(valid);
            (Flat(After(stamp, AllPlaced(stamp, answers)).sent) == Placed(stamp, answers[|answers| - 1])
             <==> Growing(AllPlaced(stamp, answers)) && Advancing(stamp, AllPlaced(stamp, answers)))
  {
    var stamp := StampOf(valid);
    var placed := AllPlaced(stamp, answers);
    StampSteady(valid);
    forall i | 0 <= i < |answers| ensures AllStamped(stamp, placed[i]) {
      StampedAre(stamp, Split(answers[i]));
    }
    forall k | 0 < k < |answers| ensures Continues(stamp, placed[k - 1], placed[k]) {
      PlacedContinues(stamp, answers[k - 1], answers[k]);
    }
    hide StampOf, Placed, Steady, Continues, AllStamped, Growing, Advancing, After;
    if Sent(stamp, placed) == placed[|placed| - 1] { WholeMeansGrowing(stamp, placed); }
    if Growing(placed) { ExactlyOnce(stamp, placed); }
  }

  /** A poll that catches a line half written sends the half, and the rest of it
      never: the whole line carries the same stamp. */
  lemma HalfLineCut(stamp: string -> string, half: string, whole: string)
    requires stamp(half) == stamp(whole) != ""
    requires Placed(stamp, half) == [half] && Placed(stamp, whole) == [whole]
    ensures Flat(After(stamp, AllPlaced(stamp, [half, whole])).sent) == [half]
  {
    hide After, Flat, Placed, StrLe, StrLt;
    SameStampLost(stamp, half, whole);
    assert AllPlaced(stamp, [half, whole]) == [[half], [whole]];
  }
}
