/** The email details page: one loaded email, its read / Bin / purge / label
    actions, the once-a-minute refresh of the "sent at" text, and the
    navigation back to the containing folder. Every service call is one step
    whose outcome the caller supplies; every side effect is appended to the
    page's effect log. */
module Details {
  import opened Mail

  const DeletedForeverMsg := "Email deleted forever."
  const DeleteForeverFailedMsg := "Failed to delete email forever."
  const MovedToBinMsg := "Email moved to Bin."
  const MoveToBinFailedMsg := "Failed to move email to Bin."

  function LabelRemovedMsg(name: string): string
  {
    "Email removed from '" + name + "'."
  }

  /** The failure text of the source has no closing full stop. */
  function LabelRemoveFailedMsg(name: string): string
  {
    "Failed to remove email from '" + name + "'"
  }

  /** `s` contains `w` as a contiguous piece. */
  ghost predicate Mentions(s: string, w: string)
  {
    exists p, q :: s == p + w + q
  }

  /** The "sent at" text: blank before the first load, otherwise what
      `formatDateVerbose(sentAt)` gives when evaluated at time `at`. */
  datatype SentAtText = Blank | Formatted(sentAt: int, at: int)

  /** The timer bookkeeping of the page: the `intervalId` ref, whether the
      last run of the refresh effect left a cleanup to run, the `sentAt`
      captured by the armed interval's callback, and the next handle the
      browser hands out (handles are positive, so a stored one is truthy). */
  datatype Timer = Timer(intervalId: Option<nat>, cleanupPending: bool, capturedSentAt: int, nextHandle: nat)

  ghost predicate TimerOk(t: Timer)
  {
    && 0 < t.nextHandle
    && (t.intervalId.Some? ==> 0 < t.intervalId.value < t.nextHandle)
    && (t.cleanupPending ==> t.intervalId.Some?)
  }

  /** The interval that is still armed, if any. */
  function ArmedSet(t: Timer): (r: set<nat>)
    ensures |r| <= 1
  {
    if t.cleanupPending && t.intervalId.Some? then {t.intervalId.value} else {}
  }

  /** The timer after the refresh effect armed a fresh interval. */
  function Rearmed(t: Timer, sentAt: int): Timer
  {
    Timer(Some(t.nextHandle), true, sentAt, t.nextHandle + 1)
  }

  /** The effects of re-running the refresh effect once the displayed email
      changes: React first runs the previous run's cleanup, then the effect
      body clears the interval the ref still names and arms a new one. */
  function RefreshEffects(t: Timer): seq<Effect>
  {
    (if t.cleanupPending && t.intervalId.Some? then [ClearInterval(t.intervalId.value)] else [])
    + (if t.intervalId.Some? && t.intervalId.value != 0 then [ClearInterval(t.intervalId.value)] else [])
    + [SetInterval(t.nextHandle)]
  }

  /** The refresh effect only clears intervals, the previous run's first,
      and finishes by arming one with the next handle. */
  lemma RefreshEffectsShape(t: Timer)
    ensures var r := RefreshEffects(t);
      && |r| >= 1 && r[|r| - 1] == SetInterval(t.nextHandle)
      && (forall i :: 0 <= i < |r| - 1 ==> r[i].ClearInterval?)
      && (forall i :: 0 <= i < |r| ==> !r[i].Publish? && !r[i].Navigate? && !r[i].ShowSuccess? && !r[i].ShowError?)
      && (t.cleanupPending && t.intervalId.Some? ==> r[0] == ClearInterval(t.intervalId.value))
  {
  }

  /** Re-arming leaves exactly one live interval, the new one, whatever was
      armed before. */
  lemma RefreshLeavesOneInterval(s: seq<Effect>, t: Timer)
    requires TimerOk(t) && Active(s) == ArmedSet(t)
    ensures Active(s + RefreshEffects(t)) == {t.nextHandle}
  {
    ActiveAppend(s, RefreshEffects(t));
    RefreshReplay(t);
  }

  /** Replayed from what the slot names as armed, the refresh effect ends
      with only the new interval live. */
  lemma RefreshReplay(t: Timer)
    requires TimerOk(t)
    ensures Replay(ArmedSet(t), RefreshEffects(t)) == {t.nextHandle}
  {
    var r := RefreshEffects(t);
    var set1 := SetInterval(t.nextHandle);
    ReplayCons({}, set1, []);
    if t.intervalId.Some? {
      var clear := ClearInterval(t.intervalId.value);
      ReplayCons({}, clear, [set1]);
      if t.cleanupPending {
        assert r == [clear] + [clear, set1];
        ReplayCons(ArmedSet(t), clear, [clear, set1]);
      } else {
        assert r == [clear, set1];
      }
    } else {
      assert r == [set1];
    }
  }

  /** `{ ...email, isRead: true }` */
  function MarkedRead(e: Email): (r: Email)
    ensures r.isRead && r.(isRead := e.isRead) == e
  {
    e.(isRead := true)
  }

  /** The held email after the delete handler: when not yet in the Bin its
      `deletedAt` is stamped in place, before the outcome of the save is
      known. */
  function AfterDelete(e: Email, now: int): (r: Email)
    ensures NotNull(r.deletedAt)
    ensures r.(deletedAt := e.deletedAt) == e
    ensures NotNull(e.deletedAt) ==> r == e
    ensures !NotNull(e.deletedAt) ==> r.deletedAt == At(now)
  {
    if e.deletedAt != Null then e else e.(deletedAt := At(now))
  }

  /** Where "up" leads: the containing folder of the current path, with the
      query string forwarded unchanged. */
  function UpTarget(loc: Location, containingFolder: string -> string): (r: Location)
    ensures r.search == loc.search
    ensures r.pathname == containingFolder(loc.pathname)
  {
    Location(containingFolder(loc.pathname), loc.search)
  }

  /** Both service calls of a load succeeded. */
  predicate Loads(fetched: Option<Email>, saveOk: bool)
  {
    fetched.Some? && saveOk
  }

  /** The effects of `loadEmailAndMarkAsRead`: fetch, save the copy marked
      read, then publish it (and re-run the refresh effect); any failure
      navigates up without a user message. */
  function LoadEffects(id: string, fetched: Option<Email>, saveOk: bool, up: Location, t: Timer): seq<Effect>
  {
    match fetched
    case None =>
      [Fetch(id), Navigate(up)]
    case Some(f) =>
      if !saveOk then
        [Fetch(id), Save(MarkedRead(f)), Navigate(up)]
      else
        [Fetch(id), Save(MarkedRead(f)), Publish(MarkedRead(f))] + RefreshEffects(t)
  }

  /** A load fetches first; on success the one publication is of the copy
      just saved marked read; any failure ends in the one navigation up; no
      user message in any case. */
  lemma LoadEffectsShape(id: string, fetched: Option<Email>, saveOk: bool, up: Location, t: Timer)
    ensures var r := LoadEffects(id, fetched, saveOk, up, t);
      && |r| >= 2 && r[0] == Fetch(id)
      && (fetched.Some? ==> r[1] == Save(MarkedRead(fetched.value)))
      && (Loads(fetched, saveOk) ==> OnlyAt(r, PublishKind, 2) && r[2] == Publish(MarkedRead(fetched.value)))
      && (Loads(fetched, saveOk) ==> NoneOf(r, NavigateKind))
      && (!Loads(fetched, saveOk) ==> OnlyAt(r, NavigateKind, |r| - 1) && r[|r| - 1] == Navigate(up))
      && (!Loads(fetched, saveOk) ==> NoneOf(r, PublishKind) && forall i :: 0 <= i < |r| ==> Quiet(r[i]))
      && NoneOf(r, SuccessKind) && NoneOf(r, ErrorKind)
      && PublishesFollowSaves(r)
  {
    var r := LoadEffects(id, fetched, saveOk, up, t);
    if fetched.None? {
      assert r == [Fetch(id), Navigate(up)];
    } else if !saveOk {
      assert r == [Fetch(id), Save(MarkedRead(fetched.value)), Navigate(up)];
    } else {
      RefreshEffectsShape(t);
    }
  }

  /** A load does nothing but what its two service calls and their outcomes
      call for: no save after a failed fetch, the refresh effect right after
      the publication, and never a removal, a label update or a message. */
  lemma LoadEffectsExact(id: string, fetched: Option<Email>, saveOk: bool, up: Location, t: Timer)
    ensures var r := LoadEffects(id, fetched, saveOk, up, t);
      && |r| == (if fetched.None? then 2 else if !saveOk then 3 else 3 + |RefreshEffects(t)|)
      && (fetched.None? ==> NoneOf(r, SaveKind))
      && (Loads(fetched, saveOk) ==> r[3..] == RefreshEffects(t))
      && NoneOf(r, RemoveKind) && NoneOf(r, UpdateLabelsKind) && NoneOf(r, HideKind)
  {
    var r := LoadEffects(id, fetched, saveOk, up, t);
    if fetched.None? {
      assert r == [Fetch(id), Navigate(up)];
    } else if !saveOk {
      assert r == [Fetch(id), Save(MarkedRead(fetched.value)), Navigate(up)];
    } else {
      RefreshEffectsShape(t);
      assert r[3..] == RefreshEffects(t);
    }
  }

  /** The effects of `onDeleteEmail` on the held email `e`. */
  function DeleteEffects(e: Email, now: int, ok: bool, up: Location): seq<Effect>
  {
    var call := if e.deletedAt != Null then Remove(e.id) else Save(AfterDelete(e, now));
    if ok then
      [call, Navigate(up), ShowSuccess(if e.deletedAt != Null then DeletedForeverMsg else MovedToBinMsg)]
    else
      [call, ShowError(if e.deletedAt != Null then DeleteForeverFailedMsg else MoveToBinFailedMsg)]
  }

  /** A delete makes exactly one service call, `remove` when `deletedAt !==
      null` and otherwise a `save` of the stamped record; on success it
      navigates up once and then shows the one success message, on failure
      it shows the one error message; nothing else happens. */
  lemma DeleteEffectsShape(e: Email, now: int, ok: bool, up: Location)
    ensures var r := DeleteEffects(e, now, ok, up);
      && |r| == (if ok then 3 else 2)
      && (NotNull(e.deletedAt) ==> OnlyAt(r, RemoveKind, 0) && r[0] == Remove(e.id) && NoneOf(r, SaveKind))
      && (!NotNull(e.deletedAt) ==> OnlyAt(r, SaveKind, 0) && r[0] == Save(AfterDelete(e, now)) && NoneOf(r, RemoveKind))
      && (ok ==> OnlyAt(r, NavigateKind, |r| - 2) && r[|r| - 2] == Navigate(up))
      && (ok ==> OnlyAt(r, SuccessKind, |r| - 1) && NoneOf(r, ErrorKind))
      && (!ok ==> OnlyAt(r, ErrorKind, |r| - 1) && NoneOf(r, SuccessKind) && NoneOf(r, NavigateKind))
      && r[|r| - 1].text == (if NotNull(e.deletedAt) then (if ok then DeletedForeverMsg else DeleteForeverFailedMsg)
                             else (if ok then MovedToBinMsg else MoveToBinFailedMsg))
      && (forall i :: 0 <= i < |r| ==> Quiet(r[i]) && !r[i].Publish?)
  {
    var r := DeleteEffects(e, now, ok, up);
    var call := if NotNull(e.deletedAt) then Remove(e.id) else Save(AfterDelete(e, now));
    if ok {
      var text := if NotNull(e.deletedAt) then DeletedForeverMsg else MovedToBinMsg;
      assert r == [call, Navigate(up), ShowSuccess(text)];
    } else {
      var text := if NotNull(e.deletedAt) then DeleteForeverFailedMsg else MoveToBinFailedMsg;
      assert r == [call, ShowError(text)];
    }
  }

  /** Whatever the outcome of the first delete, the held record is then in
      the Bin, so a second delete asks for a permanent removal. */
  lemma SecondDeletePurges(e: Email, now1: int, now2: int, ok: bool, up: Location)
    ensures DeleteEffects(AfterDelete(e, now1), now2, ok, up)[0] == Remove(e.id)
  {
  }

  /** The held email after the delete handler when the stamp is applied
      only once the save succeeded (copy-on-write). */
  function AfterDeleteOnSuccess(e: Email, now: int, ok: bool): (r: Email)
    ensures ok ==> NotNull(r.deletedAt) && r.(deletedAt := e.deletedAt) == e
    ensures ok && !NotNull(e.deletedAt) ==> r.deletedAt == At(now)
    ensures ok && NotNull(e.deletedAt) ==> r == e
    ensures !ok ==> r == e
  {
    if ok then AfterDelete(e, now) else e
  }

  /** With copy-on-write, a delete retried after a failed move to the Bin
      tries the move again and never removes the email for good. */
  lemma RetryAfterFailedMoveMovesAgain(e: Email, now1: int, now2: int, ok: bool, up: Location)
    requires !NotNull(e.deletedAt)
    ensures DeleteEffects(AfterDeleteOnSuccess(e, now1, false), now2, ok, up)[0] == Save(AfterDelete(e, now2))
    ensures NoneOf(DeleteEffects(AfterDeleteOnSuccess(e, now1, false), now2, ok, up), RemoveKind)
  {
  }

  /** The effects of `onMarkEmailAsUnread` on the held email `e`. */
  function MarkUnreadEffects(e: Email, ok: bool, up: Location): seq<Effect>
  {
    [Save(e.(isRead := false))] + if ok then [Navigate(up)] else []
  }

  /** Marking unread makes one service call, a `save` of the held email with
      `isRead` false, then navigates up once on success; nothing else
      happens, and no message is shown. */
  lemma MarkUnreadEffectsShape(e: Email, ok: bool, up: Location)
    ensures var r := MarkUnreadEffects(e, ok, up);
      && |r| == (if ok then 2 else 1)
      && OnlyAt(r, SaveKind, 0) && r[0] == Save(e.(isRead := false))
      && (ok ==> OnlyAt(r, NavigateKind, |r| - 1) && r[|r| - 1] == Navigate(up))
      && (!ok ==> NoneOf(r, NavigateKind))
      && NoneOf(r, SuccessKind) && NoneOf(r, ErrorKind)
      && (forall i :: 0 <= i < |r| ==> Quiet(r[i]) && !r[i].Publish?)
  {
  }

  /** The effects of `onRemoveLabel` before the reload. */
  function LabelEffects(e: Email, lbl: Label, ok: bool): (r: seq<Effect>)
    ensures |r| == 3 && r[0] == HideMsg
    ensures r[1] == UpdateLabels([e], map[lbl.id := false])
    ensures r[2].ShowSuccess? == ok && r[2].ShowError? == !ok
    ensures Mentions(r[2].text, lbl.name)
    ensures forall i :: 0 <= i < |r| ==> Quiet(r[i]) && !r[i].Publish?
  {
    var text := if ok then LabelRemovedMsg(lbl.name) else LabelRemoveFailedMsg(lbl.name);
    var prefix := if ok then "Email removed from '" else "Failed to remove email from '";
    var suffix := if ok then "'." else "'";
    assert text == prefix + lbl.name + suffix;
    [HideMsg, UpdateLabels([e], map[lbl.id := false]), if ok then ShowSuccess(text) else ShowError(text)]
  }

  /** The `EmailDetails` component: its state cells, the `intervalId` ref
      and the log of what it has done. */
  class EmailDetails {
    var emailId: string                       // params.emailId
    var location: Location                    // useLocation()
    const containingFolder: string -> string  // getContainingFolder
    var email: Option<Email>                  // [email, setEmail]
    var sentAtStr: SentAtText                 // [sentAtStr, setSentAtStr]
    var intervalId: Option<nat>               // intervalId.current
    var cleanupPending: bool
    var capturedSentAt: int
    var nextHandle: nat
    var effects: seq<Effect>
    var mounted: bool                         // false once React has unmounted the page

    function TimerState(): Timer
      reads this
    {
      Timer(intervalId, cleanupPending, capturedSentAt, nextHandle)
    }

    function Up(): Location
      reads this
    {
      UpTarget(location, containingFolder)
    }

    /** At most one interval is live, the one the ref names; none is live
        while no email is held or once the page is unmounted; the live one
        refreshes the held email's send time; every published email was
        saved, marked read, first. */
    ghost predicate Valid()
      reads this
    {
      && LogOk()
      && (cleanupPending ==> mounted && email.Some? && capturedSentAt == email.value.sentAt)
    }

    /** At most one interval is ever live, none while no email is held, and
        none after teardown. */
    lemma LiveIntervals()
      requires Valid()
      ensures |Active(effects)| <= 1
      ensures email.None? ==> Active(effects) == {}
      ensures !mounted ==> Active(effects) == {}
    {
    }

    /** The part of `Valid` about the timer slot and the effect log alone. */
    ghost predicate LogOk()
      reads this
    {
      && TimerOk(TimerState())
      && Active(effects) == ArmedSet(TimerState())
      && PublishesFollowSaves(effects)
    }

    /** Mount, before the first load: nothing held, no interval (the refresh
        effect returns early on a null email). */
    constructor (emailId: string, location: Location, containingFolder: string -> string)
      ensures Valid()
      ensures this.emailId == emailId && this.location == location && this.containingFolder == containingFolder
      ensures email == None && sentAtStr == Blank && effects == [] && mounted
      ensures TimerState() == Timer(None, false, 0, 1)
      ensures Active(effects) == {}
    {
      this.emailId := emailId;
      this.location := location;
      this.containingFolder := containingFolder;
      email := None;
      sentAtStr := Blank;
      intervalId := None;
      cleanupPending := false;
      capturedSentAt := 0;
      nextHandle := 1;
      effects := [];
      mounted := true;
    }

    /** Appends, in order, effects that touch no timer and publish nothing.
        The handlers collect what they do in a local log and hand it over
        here once. */
    method Emit(xs: seq<Effect>)
      requires Valid()
      requires forall i :: 0 <= i < |xs| ==> Quiet(xs[i]) && !xs[i].Publish?
      modifies this`effects
      ensures Valid()
      ensures effects == old(effects) + xs
    {
      ActiveQuiet(effects, xs);
      FollowsAppend(effects, xs);
      effects := effects + xs;
    }

    /** `navigateUp`, as the Back button calls it. */
    method NavigateUp()
      requires Valid() && mounted
      modifies this`effects
      ensures Valid()
      ensures effects == old(effects) + [Navigate(UpTarget(location, containingFolder))]
    {
      Emit([Navigate(Up())]);
    }

    /** `setEmail(e)` followed by the refresh effect of lines 32-49, which
        React re-runs because the email changed. */
    method SetEmail(e: Email, now: int)
      requires Valid() && mounted && e.isRead && |effects| > 0 && effects[|effects| - 1] == Save(e)
      modifies this`email, this`sentAtStr, this`intervalId, this`cleanupPending,
               this`capturedSentAt, this`nextHandle, this`effects
      ensures Valid()
      ensures email == Some(e) && sentAtStr == Formatted(e.sentAt, now)
      ensures TimerState() == Rearmed(old(TimerState()), e.sentAt)
      ensures effects == old(effects) + [Publish(e)] + RefreshEffects(old(TimerState()))
    {
      email := Some(e);
      ActiveSnoc(effects, Publish(e));
      effects := effects + [Publish(e)];
      RunRefreshEffect(e, now);
    }

    /** The refresh effect re-run for the held email `e`. */
    method RunRefreshEffect(e: Email, now: int)
      requires LogOk() && mounted && email == Some(e)
      modifies this`sentAtStr, this`intervalId, this`cleanupPending,
               this`capturedSentAt, this`nextHandle, this`effects
      ensures Valid()
      ensures sentAtStr == Formatted(e.sentAt, now)
      ensures TimerState() == Rearmed(old(TimerState()), e.sentAt)
      ensures effects == old(effects) + RefreshEffects(old(TimerState()))
    {
      ghost var t0 := TimerState();
      var log: seq<Effect> := [];
      // React first runs the previous run's cleanup: clearInterval(intervalId.current)
      if cleanupPending {
        log := log + [ClearInterval(intervalId.value)];
      }
      // then the effect body; the email is not null here
      if intervalId.Some? && intervalId.value != 0 {
        log := log + [ClearInterval(intervalId.value)];
      }
      var id := nextHandle;
      log := log + [SetInterval(id)];
      assert log == RefreshEffects(t0);
      RefreshLeavesOneInterval(effects, t0);
      RefreshEffectsShape(t0);
      FollowsAppend(effects, log);
      effects := effects + log;
      sentAtStr := Formatted(e.sentAt, now);
      nextHandle := id + 1;
      capturedSentAt := e.sentAt;
      intervalId := Some(id);
      cleanupPending := true;
    }

    method LoadEmailAndMarkAsRead(fetched: Option<Email>, saveOk: bool, now: int)
      requires Valid() && mounted
      modifies this`email, this`sentAtStr, this`intervalId, this`cleanupPending,
               this`capturedSentAt, this`nextHandle, this`effects
      ensures Valid()
      ensures effects == old(effects) + LoadEffects(emailId, fetched, saveOk, Up(), old(TimerState()))
      ensures Loads(fetched, saveOk) ==>
        && email == Some(MarkedRead(fetched.value))
        && sentAtStr == Formatted(fetched.value.sentAt, now)
        && TimerState() == Rearmed(old(TimerState()), fetched.value.sentAt)
      ensures !Loads(fetched, saveOk) ==>
        email == old(email) && sentAtStr == old(sentAtStr) && TimerState() == old(TimerState())
    {
      ghost var s0 := effects;
      ghost var t0 := TimerState();
      var log := [Fetch(emailId)];
      if fetched.None? {
        log := log + [Navigate(Up())];   // navigateUp()
        assert log == LoadEffects(emailId, fetched, saveOk, Up(), t0);
        Emit(log);
        return;
      }
      var tmpEmail := MarkedRead(fetched.value);
      log := log + [Save(tmpEmail)];
      if !saveOk {
        log := log + [Navigate(Up())];   // navigateUp()
        assert log == LoadEffects(emailId, fetched, saveOk, Up(), t0);
        Emit(log);
        return;
      }
      Emit(log);
      SetEmail(tmpEmail, now);
      assert effects == s0 + LoadEffects(emailId, fetched, saveOk, Up(), t0);
    }

    /** The load effect of lines 28-30 runs again only when the route's
        email id changed. */
    method OnRouteChange(newId: string, newLocation: Location, fetched: Option<Email>, saveOk: bool, now: int)
      requires Valid() && mounted
      modifies this`emailId, this`location, this`email, this`sentAtStr, this`intervalId,
               this`cleanupPending, this`capturedSentAt, this`nextHandle, this`effects
      ensures Valid()
      ensures emailId == newId && location == newLocation
      ensures newId == old(emailId) ==>
        && effects == old(effects) && email == old(email)
        && sentAtStr == old(sentAtStr) && TimerState() == old(TimerState())
      ensures newId != old(emailId) ==>
        && effects == old(effects) + LoadEffects(newId, fetched, saveOk, UpTarget(newLocation, containingFolder), old(TimerState()))
        && (Loads(fetched, saveOk) ==>
              && email == Some(MarkedRead(fetched.value))
              && sentAtStr == Formatted(fetched.value.sentAt, now)
              && TimerState() == Rearmed(old(TimerState()), fetched.value.sentAt))
        && (!Loads(fetched, saveOk) ==>
              email == old(email) && sentAtStr == old(sentAtStr) && TimerState() == old(TimerState()))
    {
      var changed := newId != emailId;
      emailId := newId;
      location := newLocation;
      if changed {
        LoadEmailAndMarkAsRead(fetched, saveOk, now);
      }
    }

    method OnDeleteEmail(now: int, ok: bool)
      requires Valid() && email.Some? && mounted
      modifies this`email, this`effects
      ensures Valid()
      ensures email == Some(AfterDelete(old(email).value, now))
      ensures effects == old(effects) + DeleteEffects(old(email).value, now, ok, Up())
    {
      var log: seq<Effect>;
      if email.value.deletedAt != Null {
        // `deletedAt !== null`: a record already in the Bin, or one with no `deletedAt` at all
        log := [Remove(email.value.id)];
        if ok {
          log := log + [Navigate(Up()), ShowSuccess(DeletedForeverMsg)];
        } else {
          log := log + [ShowError(DeleteForeverFailedMsg)];
        }
      } else {
        // move to the Bin: `email.deletedAt = Date.now()` changes the held record
        email := Some(email.value.(deletedAt := At(now)));
        log := [Save(email.value)];
        if ok {
          log := log + [Navigate(Up()), ShowSuccess(MovedToBinMsg)];
        } else {
          log := log + [ShowError(MoveToBinFailedMsg)];
        }
      }
      Emit(log);
    }

    /** The delete handler under the copy-on-write rule: the stamped copy is
        saved, and the held email takes it only once the save succeeded. */
    method OnDeleteEmailCopyOnWrite(now: int, ok: bool)
      requires Valid() && email.Some? && mounted
      modifies this`email, this`effects
      ensures Valid()
      ensures email == Some(AfterDeleteOnSuccess(old(email).value, now, ok))
      ensures !ok ==> email == old(email)
      ensures effects == old(effects) + DeleteEffects(old(email).value, now, ok, Up())
    {
      var log: seq<Effect>;
      if email.value.deletedAt != Null {
        log := [Remove(email.value.id)];
        if ok {
          log := log + [Navigate(Up()), ShowSuccess(DeletedForeverMsg)];
        } else {
          log := log + [ShowError(DeleteForeverFailedMsg)];
        }
      } else {
        var stamped := email.value.(deletedAt := At(now));
        log := [Save(stamped)];
        if ok {
          email := Some(stamped);
          log := log + [Navigate(Up()), ShowSuccess(MovedToBinMsg)];
        } else {
          log := log + [ShowError(MoveToBinFailedMsg)];
        }
      }
      Emit(log);
    }

    method OnMarkEmailAsUnread(ok: bool)
      requires Valid() && email.Some? && mounted
      modifies this`effects
      ensures Valid()
      ensures email == old(email)
      ensures effects == old(effects) + MarkUnreadEffects(email.value, ok, Up())
    {
      var updatedEmail := email.value.(isRead := false);
      var log := [Save(updatedEmail)];
      if ok {
        log := log + [Navigate(Up())];   // navigateUp()
      }
      Emit(log);
    }

    method OnRemoveLabel(lbl: Label, updateOk: bool, fetched: Option<Email>, saveOk: bool, now: int)
      requires Valid() && email.Some? && mounted
      modifies this`email, this`sentAtStr, this`intervalId, this`cleanupPending,
               this`capturedSentAt, this`nextHandle, this`effects
      ensures Valid()
      ensures effects == old(effects) + LabelEffects(old(email).value, lbl, updateOk)
                         + LoadEffects(emailId, fetched, saveOk, Up(), old(TimerState()))
      ensures Loads(fetched, saveOk) ==>
        && email == Some(MarkedRead(fetched.value))
        && sentAtStr == Formatted(fetched.value.sentAt, now)
        && TimerState() == Rearmed(old(TimerState()), fetched.value.sentAt)
      ensures !Loads(fetched, saveOk) ==>
        email == old(email) && sentAtStr == old(sentAtStr) && TimerState() == old(TimerState())
    {
      ghost var t0 := TimerState();
      var log := [HideMsg, UpdateLabels([email.value], map[lbl.id := false])];
      if updateOk {
        log := log + [ShowSuccess(LabelRemovedMsg(lbl.name))];
      } else {
        log := log + [ShowError(LabelRemoveFailedMsg(lbl.name))];
      }
      assert log == LabelEffects(old(email).value, lbl, updateOk);
      Emit(log);
      ghost var s1 := effects;
      LoadEmailAndMarkAsRead(fetched, saveOk, now);
      assert effects == s1 + LoadEffects(emailId, fetched, saveOk, Up(), t0);
    }

    /** The armed interval fires: the "sent at" text is recomputed for the
        held email; nothing persisted changes and no effect is logged. */
    method OnInterval(now: int)
      requires Valid() && mounted
      modifies this`sentAtStr
      ensures Valid()
      ensures cleanupPending ==> sentAtStr == Formatted(email.value.sentAt, now)
      ensures !cleanupPending ==> sentAtStr == old(sentAtStr)
    {
      if cleanupPending {
        sentAtStr := Formatted(capturedSentAt, now);
      }
    }

    /** Unmount: the pending cleanup clears the slot's interval, and no
        handler runs on the page afterwards (each requires `mounted`). */
    method Unmount()
      requires Valid() && mounted
      modifies this`cleanupPending, this`effects, this`mounted
      ensures Valid()
      ensures !mounted && Active(effects) == {}
      ensures effects == old(effects) + if old(cleanupPending) then [ClearInterval(intervalId.value)] else []
    {
      if cleanupPending {
        ActiveSnoc(effects, ClearInterval(intervalId.value));
        effects := effects + [ClearInterval(intervalId.value)];
        cleanupPending := false;
      }
      mounted := false;
    }
  }
}
