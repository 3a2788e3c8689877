/**
 * The user detail page: the load state driven by one fetch per route id, the
 * choice between the loading, error and profile views, the address line, and
 * the single "last copied field" slot with its reset timer.
 *
 * The network is replaced by `Reply`, the outcome a run of the fetch would
 * observe; JSON decoding is not modelled, only whether it produced a value.
 */
module UserIdPage {
  import opened JsText
  import opened Timers
  import UserItem

  // ---------------------------------------------------------------------
  // The user record
  // ---------------------------------------------------------------------

  datatype Geo = Geo(lat: string, lng: string)
  datatype Address = Address(street: string, suite: string, city: string, zipcode: string, geo: Geo)
  datatype Company = Company(name: string, catchPhrase: string, bs: string)
  datatype User = User(
    id: int, name: string, username: string, email: string, phone: string,
    website: string, address: Address, company: Company)

  // ---------------------------------------------------------------------
  // formatAddress
  // ---------------------------------------------------------------------

  /** `${street}, ${suite}, ${city} - ${zipcode}`. */
  function FormatAddress(a: Address): string {
    a.street + ", " + a.suite + ", " + a.city + " - " + a.zipcode
  }

  /** The four parts an address line shows. */
  datatype AddressParts = AddressParts(street: string, suite: string, city: string, zipcode: string)

  /** Splits `s` at its first comma, which must be followed by a space. */
  function SplitAtComma(s: string): Option<(string, string)> {
    match IndexOf(s, ',')
    case None => None
    case Some(i) =>
      if i + 1 < |s| && s[i + 1] == ' ' then Some((s[..i], s[i + 2..])) else None
  }

  /** Splits `s` at its last space, which must follow " -". */
  function SplitAtDash(s: string): Option<(string, string)> {
    match LastIndexOf(s, ' ')
    case None => None
    case Some(k) =>
      if 2 <= k && s[k - 2] == ' ' && s[k - 1] == '-' then Some((s[..k - 2], s[k + 1..])) else None
  }

  /** Reads an address line back: the street runs to the first comma, the suite to the
      next one, and the zipcode starts after the last space, which follows " -". */
  function ParseAddress(s: string): Option<AddressParts> {
    match SplitAtComma(s)
    case None => None
    case Some((street, rest)) =>
      match SplitAtComma(rest)
      case None => None
      case Some((suite, tail)) =>
        match SplitAtDash(tail)
        case None => None
        case Some((city, zipcode)) => Some(AddressParts(street, suite, city, zipcode))
  }

  lemma SplitAtCommaOf(a: string, b: string)
    requires ',' !in a
    ensures SplitAtComma(a + ", " + b) == Some((a, b))
  {
    var s := a + ", " + b;
    assert s == a + [','] + (" " + b);
    IndexOfAfter(a, ',', " " + b);
    assert s[..|a|] == a && s[|a| + 2..] == b;
  }

  lemma SplitAtDashOf(a: string, b: string)
    requires ' ' !in b
    ensures SplitAtDash(a + " - " + b) == Some((a, b))
  {
    var s := a + " - " + b;
    assert s == (a + " -") + [' '] + b;
    LastIndexOfBefore(a + " -", ' ', b);
    assert s[..|a|] == a && s[|a| + 3..] == b;
  }

  /** The address line is unambiguous when the street and the suite hold no comma and the
      zipcode no space: reading it back gives the four parts that were rendered. */
  lemma FormatAddressRoundTrip(a: Address)
    requires ',' !in a.street && ',' !in a.suite && ' ' !in a.zipcode
    ensures ParseAddress(FormatAddress(a)) == Some(AddressParts(a.street, a.suite, a.city, a.zipcode))
  {
    var tail := a.city + " - " + a.zipcode;
    var rest := a.suite + ", " + tail;
    assert FormatAddress(a) == a.street + ", " + rest;
    SplitAtCommaOf(a.street, rest);
    SplitAtCommaOf(a.suite, tail);
    SplitAtDashOf(a.city, a.zipcode);
  }

  // ---------------------------------------------------------------------
  // fetchUser
  // ---------------------------------------------------------------------

  const MissingIdMessage := "ID do usuário não fornecido"
  const NotFoundMessage := "Usuário não encontrado"
  const LoadFailedMessage := "Erro ao carregar usuário"
  const UnknownErrorMessage := "Erro desconhecido"

  /** A value caught by the `catch`: an `Error` with its message, or anything else. */
  datatype Thrown = ErrorObject(message: string) | OtherValue

  /** What `response.json()` does: produce a value (`null` or a user), or throw. */
  datatype Body = Json(value: Option<User>) | Unparsable(thrown: Thrown)

  /** What the request observes: `fetch` itself throws, or a response arrives. */
  datatype Reply = Rejected(thrown: Thrown) | Response(status: int, body: Body)

  /** `response.ok`. */
  predicate Ok(status: int) {
    200 <= status <= 299
  }

  /** `err instanceof Error ? err.message : "Erro desconhecido"`. */
  function CaughtMessage(t: Thrown): string {
    match t
    case ErrorObject(m) => m
    case OtherValue => UnknownErrorMessage
  }

  /** The page's `user`, `loading` and `error` state. */
  datatype LoadState = LoadState(user: Option<User>, loading: bool, error: Option<string>)

  /** The state the page mounts with. */
  const Initial := LoadState(None, true, None)

  /** One completed run of fetchUser for the route id `id` (absent or "" when the
      route gave none). The run never resets `loading` to true nor `error` to null:
      it records an error, or the user, and always ends with `loading` false. */
  function FetchUser(s: LoadState, id: Option<string>, reply: Reply): (r: LoadState)
    ensures !r.loading
    ensures s.error.Some? ==> r.error.Some?
    ensures r.error == s.error || r.user == s.user
    ensures r.user != s.user ==>
              Truthy(id) && reply.Response? && Ok(reply.status) && reply.body.Json?
              && r.user == reply.body.value
    ensures Truthy(id) && reply.Response? && Ok(reply.status) && reply.body.Json? ==>
              r == LoadState(reply.body.value, false, s.error)
  {
    if !Truthy(id) then LoadState(s.user, false, Some(MissingIdMessage))
    else
      match reply
      case Rejected(t) => LoadState(s.user, false, Some(CaughtMessage(t)))
      case Response(status, body) =>
        if !Ok(status) then
          LoadState(s.user, false, Some(if status == 404 then NotFoundMessage else LoadFailedMessage))
        else
          match body
          case Json(v) => LoadState(v, false, s.error)
          case Unparsable(t) => LoadState(s.user, false, Some(CaughtMessage(t)))
  }

  /** What the page renders. */
  datatype View = Loading | Failure(message: string) | Profile(user: User)

  /** `if (loading)`, then `if (error || !user)` showing `error || "Usuário não encontrado"`,
      else the profile; an empty error string counts as no error. */
  function ViewOf(s: LoadState): (v: View)
    ensures v.Loading? <==> s.loading
    ensures v.Profile? <==> !s.loading && !Truthy(s.error) && s.user.Some?
    ensures v.Profile? ==> v.user == s.user.value
    ensures v.Failure? ==> v.message == if Truthy(s.error) then s.error.value else NotFoundMessage
  {
    if s.loading then Loading
    else if Truthy(s.error) || s.user.None? then
      Failure(if Truthy(s.error) then s.error.value else NotFoundMessage)
    else Profile(s.user.value)
  }

  /** A missing id issues no request: the reply plays no part, the fixed message is shown
      and the user already held is kept. */
  lemma MissingIdIgnoresReply(s: LoadState, reply1: Reply, reply2: Reply)
    ensures FetchUser(s, None, reply1) == FetchUser(s, None, reply2) == FetchUser(s, Some(""), reply1)
    ensures FetchUser(s, None, reply1).user == s.user
    ensures ViewOf(FetchUser(s, None, reply1)) == Failure(MissingIdMessage)
  {
  }

  /** A failed response shows the not-found message for status 404 and the generic
      message for every other failing status, whatever happened before. */
  lemma FailedStatusMessage(s: LoadState, id: Option<string>, status: int, body: Body)
    requires Truthy(id) && !Ok(status)
    ensures FetchUser(s, id, Response(status, body)).user == s.user
    ensures ViewOf(FetchUser(s, id, Response(status, body)))
            == Failure(if status == 404 then NotFoundMessage else LoadFailedMessage)
  {
  }

  /** A thrown `Error` shows its own message (when it has one); anything else thrown
      shows the unknown-error message. */
  lemma ThrownMessage(s: LoadState, id: Option<string>, t: Thrown)
    requires Truthy(id)
    ensures FetchUser(s, id, Rejected(t)).error == Some(CaughtMessage(t))
    ensures t.OtherValue? ==> ViewOf(FetchUser(s, id, Rejected(t))) == Failure(UnknownErrorMessage)
    ensures t.ErrorObject? && t.message != "" ==>
              ViewOf(FetchUser(s, id, Rejected(t))) == Failure(t.message)
  {
  }

  /** A 2xx reply whose body `json()` cannot parse lands in the same `catch`: the
      thrown value's message is recorded and the user already held is kept. */
  lemma UnparsableMessage(s: LoadState, id: Option<string>, status: int, t: Thrown)
    requires Truthy(id) && Ok(status)
    ensures FetchUser(s, id, Response(status, Unparsable(t))) == LoadState(s.user, false, Some(CaughtMessage(t)))
    ensures t.OtherValue? ==>
              ViewOf(FetchUser(s, id, Response(status, Unparsable(t)))) == Failure(UnknownErrorMessage)
  {
  }

  /** The first run that receives a user shows that user's profile. */
  lemma FirstLoadShowsProfile(id: Option<string>, status: int, u: User)
    requires Truthy(id) && Ok(status)
    ensures ViewOf(FetchUser(Initial, id, Response(status, Json(Some(u))))) == Profile(u)
  {
  }

  /** A response whose JSON is `null` leaves no user, and the page falls back to the
      not-found message although no error was recorded. */
  lemma NullUserFallsBack(id: Option<string>, status: int)
    requires Truthy(id) && Ok(status)
    ensures FetchUser(Initial, id, Response(status, Json(None))).error == None
    ensures ViewOf(FetchUser(Initial, id, Response(status, Json(None)))) == Failure(NotFoundMessage)
  {
  }

  /** A run after an id change keeps the error of an earlier run: even when it receives
      a user, the page stays on the error view. */
  lemma ErrorOutlivesLaterSuccess(s: LoadState, id: Option<string>, status: int, u: User)
    requires Truthy(s.error) && Truthy(id) && Ok(status)
    ensures FetchUser(s, id, Response(status, Json(Some(u)))).user == Some(u)
    ensures ViewOf(FetchUser(s, id, Response(status, Json(Some(u))))) == Failure(s.error.value)
  {
  }

  /** A route id and the reply its fetch observes. */
  datatype Run = Run(id: Option<string>, reply: Reply)

  /** Successive runs of fetchUser, one per id change, each completing before the next. */
  function FetchAll(s: LoadState, runs: seq<Run>): LoadState
    decreases runs
  {
    if runs == [] then s else FetchAll(FetchUser(s, runs[0].id, runs[0].reply), runs[1..])
  }

  /** After at least one completed run the page is never loading again, and once an
      error has been recorded no sequence of runs brings `error` back to null. */
  lemma {:induction false} FetchAllInvariants(s: LoadState, runs: seq<Run>)
    ensures runs != [] ==> !FetchAll(s, runs).loading
    ensures s.error.Some? ==> FetchAll(s, runs).error.Some?
    ensures !s.loading ==> !FetchAll(s, runs).loading
    decreases runs
  {
    if runs != [] {
      FetchAllInvariants(FetchUser(s, runs[0].id, runs[0].reply), runs[1..]);
    }
  }

  /** Once a non-empty error is shown, only a later error can change the message: runs
      that succeed never bring the profile view back. */
  lemma {:induction false} SuccessesKeepErrorView(s: LoadState, runs: seq<Run>)
    requires Truthy(s.error)
    requires forall i :: 0 <= i < |runs| ==> Truthy(runs[i].id) && runs[i].reply.Response?
                                             && Ok(runs[i].reply.status) && runs[i].reply.body.Json?
    ensures ViewOf(FetchAll(s, runs)) == if runs == [] && s.loading then Loading else Failure(s.error.value)
    decreases runs
  {
    if runs != [] {
      SuccessesKeepErrorView(FetchUser(s, runs[0].id, runs[0].reply), runs[1..]);
      FetchAllInvariants(FetchUser(s, runs[0].id, runs[0].reply), runs[1..]);
    }
  }

  // ---------------------------------------------------------------------
  // Copy feedback
  // ---------------------------------------------------------------------

  /** The copy toast: shown while `copiedField` holds a non-empty name; it reads
      "Email copiado!" exactly for the field "email", and "Telefone copiado!" otherwise. */
  function CopyFeedback(copiedField: Option<string>): (m: Option<string>)
    ensures m.Some? <==> Truthy(copiedField)
    ensures m == Some(UserItem.EmailCopiedText) <==> copiedField == Some("email")
    ensures m == Some(UserItem.PhoneCopiedText) <==> Truthy(copiedField) && copiedField != Some("email")
  {
    if !Truthy(copiedField) then None
    else if copiedField.value == "email" then Some(UserItem.EmailCopiedText)
    else Some(UserItem.PhoneCopiedText)
  }

  /** The avatar on the detail page uses the same initials as the card. */
  function AvatarText(u: User): (r: string)
    ensures |r| <= 2
  {
    UserItem.Initials(u.name)
  }

  // ---------------------------------------------------------------------
  // The page's state
  // ---------------------------------------------------------------------

  class DetailPage {
    var user: Option<User>
    var loading: bool
    var error: Option<string>
    var copiedField: Option<string>
    var now: nat
    var pending: seq<Timer<()>>

    /** A copied field is always waiting for a reset, at most `Delay` ahead. */
    ghost predicate Valid()
      reads this
    {
      Ordered(pending) && Window(pending, now) && (copiedField.Some? ==> pending != [])
    }

    function State(): LoadState
      reads this
    {
      LoadState(user, loading, error)
    }

    /** The state on mount, before the first fetch completes. */
    constructor ()
      ensures Valid() && State() == Initial && copiedField == None && now == 0 && pending == []
    {
      user, loading, error := None, true, None;
      copiedField, now, pending := None, 0, [];
    }

    /** fetchUser, run to completion: early return on a missing id, the `try` body,
        the `catch` that records the message, and the `finally` that ends loading. */
    method RunFetch(id: Option<string>, reply: Reply)
      modifies this`user, this`loading, this`error
      ensures State() == FetchUser(old(State()), id, reply)
    {
      if !Truthy(id) {
        error := Some(MissingIdMessage);
        loading := false;
        return;
      }
      var thrown: Option<Thrown> := None;
      match reply {
        case Rejected(t) =>
          thrown := Some(t);
        case Response(status, body) =>
          if !Ok(status) {
            thrown := Some(ErrorObject(if status == 404 then NotFoundMessage else LoadFailedMessage));
          } else {
            match body {
              case Json(v) =>
                user := v;
              case Unparsable(t) =>
                thrown := Some(t);
            }
          }
      }
      if thrown.Some? {
        error := Some(CaughtMessage(thrown.value));
      }
      loading := false;
    }

    /** handleCopy(text, field): on a successful clipboard write the slot takes `field`
        and a reset to null is scheduled `Delay` later; on failure nothing changes. */
    method Copy(field: string, written: bool)
      requires Valid()
      modifies this`copiedField, this`pending
      ensures Valid()
      ensures !written ==> copiedField == old(copiedField) && pending == old(pending)
      ensures written ==> copiedField == Some(field) && pending == old(pending) + [Timer(now + Delay, ())]
    {
      if written {
        copiedField := Some(field);
        Schedule(pending, now, ());
        pending := pending + [Timer(now + Delay, ())];
      }
    }

    /** Lets the clock run to `t`; every reset that comes due sets the slot to null,
        whichever field it was scheduled for. */
    method AdvanceTo(t: nat)
      requires Valid() && now <= t
      modifies this`copiedField, this`pending, this`now
      ensures Valid() && now == t
      ensures pending == old(pending)[DueCount(old(pending), t)..]
      ensures copiedField == if DueCount(old(pending), t) > 0 then None else old(copiedField)
      ensures old(now) + Delay <= t ==> copiedField == None && pending == []
    {
      ghost var queue := pending;
      ghost var fired := 0;
      while pending != [] && pending[0].deadline <= t
        invariant now == old(now)
        invariant fired <= |queue| && pending == queue[fired..]
        invariant forall j :: 0 <= j < fired ==> queue[j].deadline <= t
        invariant copiedField == if fired > 0 then None else old(copiedField)
      {
        copiedField := None;
        pending := pending[1..];
        fired := fired + 1;
      }
      assert DueCount(queue, t) == fired by {
        DueCountStop(queue, t, fired);
      }
      assert Ordered(pending) && Window(pending, t) by {
        Advance(queue, now, t);
      }
      assert old(now) + Delay <= t ==> pending == [] by {
        if old(now) + Delay <= t {
          AllDueAfterDelay(queue, old(now), t);
        }
      }
      now := t;
    }
  }

  /** Copying the phone shortly after the email cuts the phone toast short: the email's
      reset, which was never cancelled, clears the slot `Delay` after the email copy. */
  method EarlierResetClearsLaterCopy(page: DetailPage, d: nat)
    requires page.Valid() && 0 < d < Delay
    modifies page
    ensures page.Valid() && page.now == old(page.now) + Delay
    ensures page.copiedField == None
  {
    var t1 := page.now;
    page.Copy("email", true);
    ghost var q1 := page.pending;
    ghost var first := |q1| - 1;
    page.AdvanceTo(t1 + d);
    ghost var k1 := DueCount(q1, t1 + d);
    assert k1 <= first by {
      assert q1[first].deadline == t1 + Delay;
    }
    page.Copy("phone", true);
    assert CopyFeedback(page.copiedField) == Some(UserItem.PhoneCopiedText);
    ghost var q2 := page.pending;
    assert q2[first - k1].deadline == t1 + Delay;
    page.AdvanceTo(t1 + Delay);
    assert DueCount(q2, t1 + Delay) > 0 by {
      DueCountExact(q2, t1 + Delay);
    }
  }
}
