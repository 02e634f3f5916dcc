/** Following by cursor, as pkg/provider/logfollow.go does it: send what is
    stamped past the cursor, move the cursor to the latest stamp sent. Lines are
    taken as already split and placed; `stamp` is the stamp of a line. */
module LogCursor {
  import opened Ordering

  function Later(a: string, b: string): string {
    if StrLt(a, b) then b else a
  }

  lemma LaterIs(a: string, b: string)
    ensures StrLe(a, Later(a, b)) && StrLe(b, Later(a, b))
    ensures StrLe(b, a) ==> Later(a, b) == a
  {
    StrLeTotal(a, b);
    StrLeRefl(a);
    StrLeRefl(b);
    if StrLe(a, b) && StrLe(b, a) { StrLeAntisym(a, b); }
  }

  /** Whether a line is behind the cursor. */
  predicate Behind(stamp: string -> string, cursor: string, line: string) {
    cursor != "" && StrLe(stamp(line), cursor)
  }

  function Past(stamp: string -> string, cursor: string, lines: seq<string>): seq<string> {
    if lines == [] then []
    else
      var before, last := Past(stamp, cursor, lines[..|lines| - 1]), lines[|lines| - 1];
      if Behind(stamp, cursor, last) then before else before + [last]
  }

  /** The latest stamp of some lines, or the one to start from. */
  function Latest(stamp: string -> string, from: string, lines: seq<string>): string {
    if lines == [] then from
    else Later(Latest(stamp, from, lines[..|lines| - 1]), stamp(lines[|lines| - 1]))
  }

  /** What each poll sent on, and the cursor in the end. */
  datatype Followed = Followed(sent: seq<seq<string>>, last: string)

  function After(stamp: string -> string, answers: seq<seq<string>>): (r: Followed)
    ensures |r.sent| == |answers|
  {
    if answers == [] then Followed([], "")
    else
      var before := After(stamp, answers[..|answers| - 1]);
      var lines := Past(stamp, before.last, answers[|answers| - 1]);
      Followed(before.sent + [lines], Latest(stamp, before.last, lines))
  }

  function Flat(parts: seq<seq<string>>): seq<string> {
    if parts == [] then [] else Flat(parts[..|parts| - 1]) + parts[|parts| - 1]
  }

  lemma PastNext(stamp: string -> string, cursor: string, lines: seq<string>, line: string)
    ensures Past(stamp, cursor, lines + [line]) ==
              if Behind(stamp, cursor, line) then Past(stamp, cursor, lines) else Past(stamp, cursor, lines) + [line]
  {
    assert (lines + [line])[..|lines|] == lines;
  }

  lemma LatestNext(stamp: string -> string, from: string, lines: seq<string>, line: string)
    ensures Latest(stamp, from, lines + [line]) == Later(Latest(stamp, from, lines), stamp(line))
  {
    assert (lines + [line])[..|lines|] == lines;
  }

  lemma AfterNext(stamp: string -> string, answers: seq<seq<string>>, lines: seq<string>)
    ensures After(stamp, answers + [lines]) ==
              var before := After(stamp, answers);
              var more := Past(stamp, before.last, lines);
              Followed(before.sent + [more], Latest(stamp, before.last, more))
  {
    assert (answers + [lines])[..|answers|] == answers;
  }

  lemma FlatNext(parts: seq<seq<string>>, part: seq<string>)
    ensures Flat(parts + [part]) == Flat(parts) + part
  {
    assert (parts + [part])[..|parts|] == parts;
  }

  // ----- never twice -----

  /** Every line placed has a stamp. */
  predicate AllStamped(stamp: string -> string, lines: seq<string>) {
    forall i :: 0 <= i < |lines| ==> stamp(lines[i]) != ""
  }

  lemma {:induction false} PastAre(stamp: string -> string, cursor: string, lines: seq<string>)
    ensures forall x :: x in Past(stamp, cursor, lines) ==> x in lines && !Behind(stamp, cursor, x)
    ensures |Past(stamp, cursor, lines)| <= |lines|
  {
    if lines != [] {
      PastAre(stamp, cursor, lines[..|lines| - 1]);
      assert lines == lines[..|lines| - 1] + [lines[|lines| - 1]];
    }
  }

  lemma {:induction false} LatestCovers(stamp: string -> string, from: string, lines: seq<string>)
    ensures forall x :: x in lines ==> StrLe(stamp(x), Latest(stamp, from, lines))
    ensures StrLe(from, Latest(stamp, from, lines))
  {
    StrLeRefl(from);
    if lines != [] {
      var init, last := lines[..|lines| - 1], lines[|lines| - 1];
      LatestCovers(stamp, from, init);
      assert lines == init + [last];
      var a := Latest(stamp, from, init);
      LaterIs(a, stamp(last));
      hide StrLe, StrLt, Later;
      StrLeTrans(from, a, Latest(stamp, from, lines));
      forall x | x in lines ensures StrLe(stamp(x), Latest(stamp, from, lines)) {
        if x in init { StrLeTrans(stamp(x), a, Latest(stamp, from, lines)); }
      }
    }
  }

  /** The cursor is at or past everything sent so far. */
  lemma {:induction false} CursorCovers(stamp: string -> string, answers: seq<seq<string>>, j: nat, x: string)
    requires j < |answers| && x in After(stamp, answers).sent[j]
    ensures StrLe(stamp(x), After(stamp, answers).last) && x in answers[j]
  {
    var init := answers[..|answers| - 1];
    var before := After(stamp, init);
    var lines := Past(stamp, before.last, answers[|answers| - 1]);
    LatestCovers(stamp, before.last, lines);
    hide StrLe;
    if j < |init| {
      CursorCovers(stamp, init, j, x);
      StrLeTrans(stamp(x), before.last, After(stamp, answers).last);
    } else {
      PastAre(stamp, before.last, answers[|answers| - 1]);
    }
  }

  /** Whatever the polls answer, every line sent has a stamp strictly past every
      stamp sent by an earlier poll - so no line is ever sent by two. */
  lemma {:induction false} NeverTwice(stamp: string -> string, answers: seq<seq<string>>, j: nat, k: nat, x: string,
                                      y: string)
    requires forall i :: 0 <= i < |answers| ==> AllStamped(stamp, answers[i])
    requires j < k < |answers| && x in After(stamp, answers).sent[j] && y in After(stamp, answers).sent[k]
    ensures StrLt(stamp(x), stamp(y)) && x != y
  {
    var init := answers[..|answers| - 1];
    var before := After(stamp, init);
    if k < |init| {
      NeverTwice(stamp, init, j, k, x, y);
    } else {
      CursorCovers(stamp, init, j, x);
      PastAre(stamp, before.last, answers[k]);
      var at :| 0 <= at < |answers[j]| && answers[j][at] == x;
      assert AllStamped(stamp, answers[j]);
      NotBehindIsPast(stamp, before.last, x, y);
    }
  }

  lemma NotBehindIsPast(stamp: string -> string, cursor: string, x: string, y: string)
    requires stamp(x) != "" && StrLe(stamp(x), cursor) && !Behind(stamp, cursor, y)
    ensures StrLt(stamp(x), stamp(y))
  {
    assert cursor != "";
    StrLeTotal(cursor, stamp(y));
    StrLeTrans(stamp(x), cursor, stamp(y));
  }

  // ----- never missed -----

  /** Each answer starts with the one before. */
  predicate Growing(answers: seq<seq<string>>) {
    forall k :: 0 < k < |answers| ==> answers[k - 1] <= answers[k]
  }

  predicate AllPast(stamp: string -> string, seen: seq<string>, now: seq<string>) {
    forall i :: |seen| <= i < |now| ==> !Behind(stamp, Latest(stamp, "", seen), now[i])
  }

  /** Whatever is new in an answer is stamped past everything in the one before. */
  predicate Advancing(stamp: string -> string, answers: seq<seq<string>>) {
    forall k :: 0 < k < |answers| ==> AllPast(stamp, answers[k - 1], answers[k])
  }

  lemma {:induction false} PastOfSeen(stamp: string -> string, cursor: string, seen: seq<string>)
    requires cursor != "" && forall x :: x in seen ==> StrLe(stamp(x), cursor)
    ensures Past(stamp, cursor, seen) == []
  {
    if seen != [] {
      assert seen[|seen| - 1] in seen;
      PastOfSeen(stamp, cursor, seen[..|seen| - 1]);
    }
  }

  lemma {:induction false} PastConcat(stamp: string -> string, cursor: string, a: seq<string>, b: seq<string>)
    ensures Past(stamp, cursor, a + b) == Past(stamp, cursor, a) + Past(stamp, cursor, b)
  {
    if b == [] {
      assert a + b == a;
    } else {
      assert (a + b)[..|a + b| - 1] == a + b[..|b| - 1];
      PastConcat(stamp, cursor, a, b[..|b| - 1]);
    }
  }

  lemma {:induction false} PastWhole(stamp: string -> string, cursor: string, b: seq<string>)
    ensures |Past(stamp, cursor, b)| <= |b|
    ensures Past(stamp, cursor, b) == b <==> forall i :: 0 <= i < |b| ==> !Behind(stamp, cursor, b[i])
  {
    if b != [] {
      var init, last := b[..|b| - 1], b[|b| - 1];
      PastWhole(stamp, cursor, init);
      if Past(stamp, cursor, b) == b {
        assert !Behind(stamp, cursor, last);
        assert Past(stamp, cursor, init) == Past(stamp, cursor, b)[..|b| - 1] == init;
      }
      if Past(stamp, cursor, init) == init && !Behind(stamp, cursor, last) {
        assert Past(stamp, cursor, b) == init + [last] == b;
      }
    }
  }

  lemma {:induction false} LatestKept(stamp: string -> string, from: string, b: seq<string>)
    requires forall x :: x in b ==> StrLe(stamp(x), from)
    ensures Latest(stamp, from, b) == from
  {
    if b != [] {
      assert b[|b| - 1] in b;
      LatestKept(stamp, from, b[..|b| - 1]);
      LaterIs(from, stamp(b[|b| - 1]));
    }
  }

  /** Skipping what is behind the cursor does not change the latest stamp. */
  lemma {:induction false} LatestOfPast(stamp: string -> string, cursor: string, lines: seq<string>)
    ensures Latest(stamp, cursor, Past(stamp, cursor, lines)) == Latest(stamp, cursor, lines)
  {
    if lines != [] {
      var init, last := lines[..|lines| - 1], lines[|lines| - 1];
      LatestOfPast(stamp, cursor, init);
      LatestNext(stamp, cursor, Past(stamp, cursor, init), last);
      LatestCovers(stamp, cursor, init);
      LaterIs(Latest(stamp, cursor, init), stamp(last));
      hide StrLe, StrLt, Later;
      if Behind(stamp, cursor, last) {
        StrLeTrans(stamp(last), cursor, Latest(stamp, cursor, init));
      }
    }
  }

  lemma {:induction false} LatestConcat(stamp: string -> string, from: string, a: seq<string>, b: seq<string>)
    ensures Latest(stamp, from, a + b) == Latest(stamp, Latest(stamp, from, a), b)
  {
    if b == [] {
      assert a + b == a;
    } else {
      assert (a + b)[..|a + b| - 1] == a + b[..|b| - 1];
      LatestConcat(stamp, from, a, b[..|b| - 1]);
    }
  }

  lemma GrowingInit(answers: seq<seq<string>>)
    requires |answers| > 1 && Growing(answers)
    ensures Growing(answers[..|answers| - 1])
    ensures answers[|answers| - 2] <= answers[|answers| - 1]
  {
    var k := |answers| - 1;
    assert answers[k - 1] <= answers[k];
  }

  /** After growing answers the cursor is the latest stamp of the last of them. */
  lemma {:induction false} CursorIs(stamp: string -> string, answers: seq<seq<string>>)
    requires answers != [] && Growing(answers)
    ensures After(stamp, answers).last == Latest(stamp, "", answers[|answers| - 1])
  {
    var init, now := answers[..|answers| - 1], answers[|answers| - 1];
    LatestOfPast(stamp, After(stamp, init).last, now);
    if init != [] {
      GrowingInit(answers);
      CursorIs(stamp, init);
      var seen := answers[|answers| - 2];
      assert init[|init| - 1] == seen;
      var cursor := Latest(stamp, "", seen);
      assert now == seen + now[|seen|..];
      LatestConcat(stamp, "", seen, now[|seen|..]);
      LatestConcat(stamp, cursor, seen, now[|seen|..]);
      LatestCovers(stamp, "", seen);
      LatestKept(stamp, cursor, seen);
    }
  }

  lemma CursorSet(stamp: string -> string, lines: seq<string>)
    requires AllStamped(stamp, lines)
    ensures Latest(stamp, "", lines) == "" ==> lines == []
  {
    if lines != [] {
      LatestCovers(stamp, "", lines);
      var x := lines[|lines| - 1];
      assert x in lines && StrLe(stamp(x), Latest(stamp, "", lines));
    }
  }

  /** What the last of several growing answers sends is its new part, less the
      lines that are not past everything before. */
  lemma LastSends(stamp: string -> string, answers: seq<seq<string>>)
    requires |answers| > 1 && Growing(answers) && AllStamped(stamp, answers[|answers| - 2])
    ensures var seen, now := answers[|answers| - 2], answers[|answers| - 1];
            var more := After(stamp, answers).sent[|answers| - 1];
            |more| <= |now| - |seen| && (more == now[|seen|..] <==> AllPast(stamp, seen, now))
  {
    var init := answers[..|answers| - 1];
    var seen, now := answers[|answers| - 2], answers[|answers| - 1];
    GrowingInit(answers);
    CursorIs(stamp, init);
    assert init[|init| - 1] == seen;
    var cursor, new_ := Latest(stamp, "", seen), now[|seen|..];
    assert now == seen + new_;
    hide Growing, After;
    SendsNew(stamp, seen, new_);
    AllPastIs(stamp, seen, now);
  }

  lemma SendsNew(stamp: string -> string, seen: seq<string>, new_: seq<string>)
    requires AllStamped(stamp, seen)
    ensures var cursor := Latest(stamp, "", seen); Past(stamp, cursor, seen + new_) == Past(stamp, cursor, new_)
    ensures var cursor := Latest(stamp, "", seen);
            |Past(stamp, cursor, new_)| <= |new_|
            && (Past(stamp, cursor, new_) == new_ <==> forall i :: 0 <= i < |new_| ==> !Behind(stamp, cursor, new_[i]))
  {
    var cursor := Latest(stamp, "", seen);
    CursorSet(stamp, seen);
    LatestCovers(stamp, "", seen);
    PastConcat(stamp, cursor, seen, new_);
    PastWhole(stamp, cursor, new_);
    if seen != [] { PastOfSeen(stamp, cursor, seen); }
  }

  lemma AllPastIs(stamp: string -> string, seen: seq<string>, now: seq<string>)
    requires seen <= now
    ensures AllPast(stamp, seen, now) <==>
              forall i :: 0 <= i < |now[|seen|..]| ==> !Behind(stamp, Latest(stamp, "", seen), now[|seen|..][i])
  {
    var new_ := now[|seen|..];
    if forall i :: 0 <= i < |new_| ==> !Behind(stamp, Latest(stamp, "", seen), new_[i]) {
      forall i | |seen| <= i < |now| ensures !Behind(stamp, Latest(stamp, "", seen), now[i]) {
        assert new_[i - |seen|] == now[i];
      }
    }
  }

  lemma AdvancingInit(stamp: string -> string, answers: seq<seq<string>>)
    requires |answers| > 1
    ensures Advancing(stamp, answers) <==>
              Advancing(stamp, answers[..|answers| - 1])
              && AllPast(stamp, answers[|answers| - 2], answers[|answers| - 1])
  {
    var init := answers[..|answers| - 1];
    hide AllPast;
    assert forall k :: 0 <= k < |init| ==> init[k] == answers[k];
    var last := |answers| - 1;
    assert answers[last - 1] == answers[|answers| - 2];
    if Advancing(stamp, answers) {
      forall k | 0 < k < |init| ensures AllPast(stamp, init[k - 1], init[k]) {
        assert AllPast(stamp, answers[k - 1], answers[k]);
      }
      assert AllPast(stamp, answers[last - 1], answers[last]);
    }
    if Advancing(stamp, init) && AllPast(stamp, answers[last - 1], answers[last]) {
      forall k | 0 < k < |answers| ensures AllPast(stamp, answers[k - 1], answers[k]) {
        if k < last { assert AllPast(stamp, init[k - 1], init[k]); }
      }
    }
  }

  /** The follow theorem. When the answers grow, what has been sent is exactly
      the lines of the last answer, in order, if and only if at each poll
      everything new is stamped past everything seen. */
  lemma {:induction false} ExactlyOnce(stamp: string -> string, answers: seq<seq<string>>)
    requires answers != [] && Growing(answers) && forall i :: 0 <= i < |answers| ==> AllStamped(stamp, answers[i])
    ensures |Flat(After(stamp, answers).sent)| <= |answers[|answers| - 1]|
    ensures Flat(After(stamp, answers).sent) == answers[|answers| - 1] <==> Advancing(stamp, answers)
  {
    var n := |answers|;
    var init := answers[..n - 1];
    var before := After(stamp, init);
    var more := Past(stamp, before.last, answers[n - 1]);
    assert answers == init + [answers[n - 1]];
    AfterNext(stamp, init, answers[n - 1]);
    FlatNext(before.sent, more);
    if n == 1 {
      PastWhole(stamp, "", answers[0]);
      assert before.sent == [] && Flat(before.sent) == [];
    } else {
      GrowingInit(answers);
      ExactlyOnce(stamp, init);
      LastSends(stamp, answers);
      AdvancingInit(stamp, answers);
      assert init[n - 2] == answers[n - 2];
      JoinedWhole(Flat(before.sent), more, answers[n - 2], answers[n - 1]);
    }
  }

  lemma JoinedWhole(a: seq<string>, b: seq<string>, seen: seq<string>, now: seq<string>)
    requires seen <= now && |a| <= |seen| && |b| <= |now| - |seen|
    ensures a + b == now <==> a == seen && b == now[|seen|..]
  {
    assert now == seen + now[|seen|..];
    if a + b == now {
      assert a == (a + b)[..|seen|];
      assert b == (a + b)[|seen|..];
    }
  }

  lemma OneSent(stamp: string -> string, x: string)
    requires stamp(x) != ""
    ensures After(stamp, [[x]]) == Followed([[x]], stamp(x))
  {
    AfterNext(stamp, [], [x]);
    assert [] + [[x]] == [[x]] && [] + [x] == [x];
    PastNext(stamp, "", [], x);
    LatestNext(stamp, "", [], x);
    assert StrLt("", stamp(x));
  }

  /** A line of the cursor's own stamp that an earlier poll did not have is never
      sent: the second of two written in one instant, or the whole of a line the
      earlier poll caught half written. */
  lemma SameStampLost(stamp: string -> string, x: string, y: string)
    requires stamp(x) == stamp(y) != ""
    ensures Growing([[x], [x, y]]) && Flat(After(stamp, [[x], [x, y]]).sent) == [x]
    ensures Flat(After(stamp, [[x], [y]]).sent) == [x]
  {
    OneSent(stamp, x);
    StrLeRefl(stamp(x));
    AfterNext(stamp, [[x]], [x, y]);
    AfterNext(stamp, [[x]], [y]);
    assert [[x]] + [[x, y]] == [[x], [x, y]] && [[x]] + [[y]] == [[x], [y]];
    assert [] + [x] == [x] && [x] + [y] == [x, y] && [] + [y] == [y];
    PastNext(stamp, stamp(x), [], x);
    PastNext(stamp, stamp(x), [x], y);
    PastNext(stamp, stamp(x), [], y);
    FlatNext([], [x]);
    FlatNext([[x]], []);
    assert [] + [[x]] == [[x]];
  }
}
