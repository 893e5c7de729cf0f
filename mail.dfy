/** Records shared by the email details page and the filter form, and the
    log of side effects the page performs on its collaborators (the email
    service, the router, the user-message bus and the browser's interval
    timers). */
module Mail {

  datatype Option<T> = None | Some(value: T)

  /** A label is reference data owned elsewhere: an identity and a name. */
  datatype Label = Label(id: string, name: string)

  /** `deletedAt` as the page sees it: `null`, missing from the record
      (`undefined`), or the `Date.now()` stamp of the move to the Bin. */
  datatype DeletedAt = Null | Undefined | At(time: int)

  /** The delete handler's branch test, `deletedAt !== null`: it holds for a
      stamped record and for one with no `deletedAt` at all, and sends both
      to the permanent removal. */
  predicate NotNull(d: DeletedAt)
  {
    d != Null
  }

  datatype Email = Email(
    id: string,
    subject: string,
    body: string,
    from: string,
    to: string,
    sentAt: int,
    isRead: bool,
    isStarred: bool,
    deletedAt: DeletedAt,
    labels: seq<Label>)

  /** The router location: `pathname` and the query string `search`. */
  datatype Location = Location(pathname: string, search: string)

  /** One observable side effect, in the order the page performs it. */
  datatype Effect =
    | Fetch(id: string)                                         // emailService.getById
    | Save(email: Email)                                        // emailService.save
    | Remove(id: string)                                        // emailService.remove
    | UpdateLabels(emails: seq<Email>, membership: map<string, bool>) // emailService.updateLabelsForEmails
    | Publish(email: Email)                                     // setEmail: the email becomes displayed state
    | Navigate(target: Location)                                // navigate({pathname, search})
    | ShowSuccess(text: string)                                 // showSuccessMsg
    | ShowError(text: string)                                   // showErrorMsg
    | HideMsg                                                   // hideUserMsg
    | SetInterval(handle: nat)                                  // setInterval returned `handle`
    | ClearInterval(handle: nat)                                // clearInterval(handle)

  datatype Kind =
    | FetchKind | SaveKind | RemoveKind | UpdateLabelsKind | PublishKind | NavigateKind
    | SuccessKind | ErrorKind | HideKind | SetIntervalKind | ClearIntervalKind

  function KindOf(x: Effect): Kind
  {
    match x
    case Fetch(_) => FetchKind
    case Save(_) => SaveKind
    case Remove(_) => RemoveKind
    case UpdateLabels(_, _) => UpdateLabelsKind
    case Publish(_) => PublishKind
    case Navigate(_) => NavigateKind
    case ShowSuccess(_) => SuccessKind
    case ShowError(_) => ErrorKind
    case HideMsg => HideKind
    case SetInterval(_) => SetIntervalKind
    case ClearInterval(_) => ClearIntervalKind
  }

  /** The log `t` holds no effect of kind `k`. */
  predicate NoneOf(t: seq<Effect>, k: Kind)
  {
    forall i :: 0 <= i < |t| ==> KindOf(t[i]) != k
  }

  /** The effect at index `p` is the only one of kind `k` in the log `t`. */
  predicate OnlyAt(t: seq<Effect>, k: Kind, p: int)
  {
    0 <= p < |t| && KindOf(t[p]) == k && forall i :: 0 <= i < |t| && i != p ==> KindOf(t[i]) != k
  }

  /** An effect that neither arms nor clears an interval. */
  predicate Quiet(x: Effect)
  {
    !x.SetInterval? && !x.ClearInterval?
  }

  /** The set of live intervals after effect `x`, given those live before. */
  function ActiveAfter(live: set<nat>, x: Effect): set<nat>
  {
    match x
    case SetInterval(h) => live + {h}
    case ClearInterval(h) => live - {h}
    case _ => live
  }

  /** The intervals armed by the first `n` effects of `t` and not cleared
      by them. */
  function ActiveUpTo(t: seq<Effect>, n: nat): set<nat>
    requires n <= |t|
  {
    if n == 0 then {} else ActiveAfter(ActiveUpTo(t, n - 1), t[n - 1])
  }

  /** The intervals armed by the log `t` and not cleared since. */
  function Active(t: seq<Effect>): set<nat>
  {
    ActiveUpTo(t, |t|)
  }

  /** Logs that agree on their first `n` effects agree on what those leave
      live. */
  lemma {:induction false} ActiveUpToPrefix(t: seq<Effect>, u: seq<Effect>, n: nat)
    requires n <= |t| && n <= |u|
    requires forall i :: 0 <= i < n ==> t[i] == u[i]
    ensures ActiveUpTo(t, n) == ActiveUpTo(u, n)
  {
    if n > 0 {
      ActiveUpToPrefix(t, u, n - 1);
    }
  }

  lemma ActiveSnoc(t: seq<Effect>, x: Effect)
    ensures Active(t + [x]) == ActiveAfter(Active(t), x)
  {
    ActiveUpToPrefix(t + [x], t, |t|);
  }

  /** The live intervals after the effects `u`, in order, given `live`. */
  function Replay(live: set<nat>, u: seq<Effect>): set<nat>
    decreases |u|
  {
    if u == [] then live else Replay(ActiveAfter(live, u[0]), u[1..])
  }

  lemma ReplayCons(live: set<nat>, x: Effect, u: seq<Effect>)
    ensures Replay(live, [x] + u) == Replay(ActiveAfter(live, x), u)
  {
    assert ([x] + u)[1..] == u;
  }

  /** The intervals live after `t + u` are those live after `t`, replayed
      through `u`. */
  lemma {:induction false} ActiveAppend(t: seq<Effect>, u: seq<Effect>)
    ensures Active(t + u) == Replay(Active(t), u)
    decreases |u|
  {
    if u == [] {
      assert t + u == t;
    } else {
      assert t + u == (t + [u[0]]) + u[1..];
      ActiveSnoc(t, u[0]);
      ActiveAppend(t + [u[0]], u[1..]);
    }
  }

  /** Effects that touch no timer leave the live intervals as they were. */
  lemma {:induction false} ReplayQuiet(live: set<nat>, u: seq<Effect>)
    requires forall i :: 0 <= i < |u| ==> Quiet(u[i])
    ensures Replay(live, u) == live
    decreases |u|
  {
    if u != [] {
      ReplayQuiet(live, u[1..]);
    }
  }

  lemma ActiveQuiet(t: seq<Effect>, u: seq<Effect>)
    requires forall i :: 0 <= i < |u| ==> Quiet(u[i])
    ensures Active(t + u) == Active(t)
  {
    ActiveAppend(t, u);
    ReplayQuiet(Active(t), u);
  }

  /** Every `Publish(e)` in the log comes right after `Save(e)` of the same
      record, and that record is marked read. */
  ghost predicate PublishesFollowSaves(t: seq<Effect>)
  {
    forall i :: 0 <= i < |t| && t[i].Publish? ==>
      0 < i && t[i - 1] == Save(t[i].email) && t[i].email.isRead
  }

  /** Appending effects that publish nothing keeps every publication
      preceded by its save. */
  lemma FollowsAppend(t: seq<Effect>, u: seq<Effect>)
    requires PublishesFollowSaves(t)
    requires forall i :: 0 <= i < |u| ==> !u[i].Publish?
    ensures PublishesFollowSaves(t + u)
  {
    forall i | 0 <= i < |t + u| && (t + u)[i].Publish?
      ensures 0 < i && (t + u)[i - 1] == Save((t + u)[i].email) && (t + u)[i].email.isRead
    {
      assert i < |t|;
    }
  }
}
