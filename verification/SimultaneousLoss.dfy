/**
  Losses that began together: the group offered is as large as any that fits
  into one window, wherever the window is put.
 */
module SimultaneousLoss {
  import opened Common

  const WINDOW_SECONDS := 120
  const MIN_HOSTS := 3

  datatype Loss = Loss(epoch: int, host: string)

  predicate InTime(losses: seq<Loss>) {
    forall i, j :: 0 <= i < j < |losses| ==> losses[i].epoch <= losses[j].epoch
  }

  /** The losses that began between two instants. */
  function Between(losses: seq<Loss>, lo: int, hi: int): seq<Loss> {
    if losses == [] then []
    else
      var last := losses[|losses| - 1];
      Between(losses[..|losses| - 1], lo, hi) + if lo <= last.epoch <= hi then [last] else []
  }

  /** The losses of the window that opens at `lo`. */
  function Window(losses: seq<Loss>, lo: int): seq<Loss> {
    Between(losses, lo, lo + WINDOW_SECONDS)
  }

  lemma WiderHasMore(losses: seq<Loss>, lo: int, hi: int, wideLo: int, wideHi: int)
    requires forall l :: l in losses && lo <= l.epoch <= hi ==> wideLo <= l.epoch <= wideHi
    ensures |Between(losses, lo, hi)| <= |Between(losses, wideLo, wideHi)|
  {
  }

  lemma {:induction false} BetweenSplit(a: seq<Loss>, b: seq<Loss>, lo: int, hi: int)
    ensures Between(a + b, lo, hi) == Between(a, lo, hi) + Between(b, lo, hi)
  {
    hide Between;
    if b == [] {
      assert a + b == a;
      NothingBetween(a, lo, hi);
    } else {
      var past, last := b[..|b| - 1], b[|b| - 1];
      BetweenSplit(a, past, lo, hi);
      assert a + b == a + past + [last] && b == past + [last];
      BetweenSnoc(a + past, last, lo, hi);
      BetweenSnoc(past, last, lo, hi);
    }
  }

  lemma NothingBetween(a: seq<Loss>, lo: int, hi: int)
    ensures Between(a, lo, hi) + Between([], lo, hi) == Between(a, lo, hi)
  {
  }

  lemma BetweenSnoc(past: seq<Loss>, last: Loss, lo: int, hi: int)
    ensures Between(past + [last], lo, hi) == Between(past, lo, hi) + if lo <= last.epoch <= hi then [last] else []
  {
  }

  lemma NoneBetween(losses: seq<Loss>, lo: int, hi: int)
    requires forall l :: l in losses ==> l.epoch < lo || l.epoch > hi
    ensures Between(losses, lo, hi) == []
  {
  }

  /** The losses from position `start` on that fall into the window its loss opens. */
  function GroupAt(losses: seq<Loss>, start: nat): seq<Loss>
    requires start < |losses|
  {
    Window(losses[start..], losses[start].epoch)
  }

  lemma LaterOnes(losses: seq<Loss>, start: nat, l: Loss)
    requires InTime(losses) && start < |losses| && l in losses[start..]
    ensures losses[start].epoch <= l.epoch
  {
  }

  /** Any window holds at most the group that its own first loss opens. */
  lemma WindowIsCovered(losses: seq<Loss>, lo: int, start: nat)
    requires InTime(losses) && start <= |losses|
    requires forall i :: 0 <= i < start ==> losses[i].epoch < lo
    requires start < |losses| ==> losses[start].epoch >= lo
    ensures |Window(losses, lo)| <= if start < |losses| then |GroupAt(losses, start)| else 0
  {
    hide Between, InTime;
    var hi := lo + WINDOW_SECONDS;
    var early, rest := losses[..start], losses[start..];
    assert losses == early + rest;
    BetweenSplit(early, rest, lo, hi);
    NoneBetween(early, lo, hi);
    if start < |losses| {
      forall l | l in rest ensures losses[start].epoch <= l.epoch {
        LaterOnes(losses, start, l);
      }
      WiderHasMore(rest, lo, hi, losses[start].epoch, losses[start].epoch + WINDOW_SECONDS);
    } else {
      NoneBetween(rest, lo, hi);
    }
  }

  method MembersFrom(losses: seq<Loss>, start: nat) returns (group: seq<Loss>)
    requires InTime(losses) && start < |losses|
    ensures group == GroupAt(losses, start)
  {
    group := [];
    var rest := losses[start..];
    for i := 0 to |rest|
      invariant group == Between(rest[..i], losses[start].epoch, losses[start].epoch + WINDOW_SECONDS)
    {
      assert rest[i] == losses[start + i];
      if rest[i].epoch - losses[start].epoch <= WINDOW_SECONDS {
        group := group + [rest[i]];
      }
      assert rest[..i + 1][..i] == rest[..i];
    }
    assert rest[..|rest|] == rest;
  }

  /** No window of 120 seconds holds more losses than the group that is found. */
  method DensestGroup(losses: seq<Loss>) returns (best: seq<Loss>)
    requires InTime(losses)
    ensures forall lo :: |Window(losses, lo)| <= |best|
    ensures best == [] || exists start :: 0 <= start < |losses| && best == GroupAt(losses, start)
  {
    hide GroupAt, Between, Window;
    best := [];
    for start := 0 to |losses|
      invariant forall i :: 0 <= i < start ==> |GroupAt(losses, i)| <= |best|
      invariant best == [] || exists i :: 0 <= i < start && best == GroupAt(losses, i)
    {
      var group := MembersFrom(losses, start);
      if |group| > |best| {
        best := group;
      }
    }
    forall lo ensures |Window(losses, lo)| <= |best| {
      var start := FirstFrom(losses, lo);
      WindowIsCovered(losses, lo, start);
    }
  }

  ghost function FirstFrom(losses: seq<Loss>, lo: int): (start: nat)
    requires InTime(losses)
    ensures start <= |losses|
    ensures forall i :: 0 <= i < start ==> losses[i].epoch < lo
    ensures start < |losses| ==> losses[start].epoch >= lo
  {
    if losses == [] then 0
    else
      var past := losses[..|losses| - 1];
      var before := FirstFrom(past, lo);
      if before < |past| then before
      else if losses[|losses| - 1].epoch >= lo then |losses| - 1 else |losses|
  }

  /** A common cause is offered only for a group of three hosts that is at least half of the fleet; when some window
      holds that many losses, one is. */
  method Correlate(losses: seq<Loss>, monitored: nat) returns (group: Option<seq<Loss>>)
    requires InTime(losses) && monitored > 0
    ensures group.Some? ==> |group.value| >= MIN_HOSTS && 2 * |group.value| >= monitored
    ensures group.Some? ==> forall lo :: |Window(losses, lo)| <= |group.value|
    ensures group.Some? <==>
      exists lo :: |Window(losses, lo)| >= MIN_HOSTS && 2 * |Window(losses, lo)| >= monitored
  {
    hide GroupAt, Window;
    var best := DensestGroup(losses);
    if best != [] {
      var start :| 0 <= start < |losses| && best == GroupAt(losses, start);
      GroupIsWindow(losses, start);
    }
    group := if |best| < MIN_HOSTS || 2 * |best| < monitored then None else Some(best);
  }

  lemma GroupIsWindow(losses: seq<Loss>, start: nat)
    requires start < |losses|
    ensures |GroupAt(losses, start)| <= |Window(losses, losses[start].epoch)|
  {
    assert losses == losses[..start] + losses[start..];
    BetweenSplit(losses[..start], losses[start..], losses[start].epoch, losses[start].epoch + WINDOW_SECONDS);
  }
}
