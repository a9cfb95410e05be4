/** Properties of runs of the profile page: what any sequence of clicks, responses and
    typing that the page can produce does to the session state. */
module SessionTraces {
  import opened Wrappers
  import opened Session

  /** A response that logs the user in: a successful create or login. */
  predicate SignsInEvent<P>(e: Event<P>)
  {
    e.Response? && e.outcome.Success? && SignsIn(e.action)
  }

  predicate IsClick<P>(e: Event<P>, a: Action)
  {
    e.Click? && e.action == a
  }

  predicate IsResponse<P>(e: Event<P>, a: Action)
  {
    e.Response? && e.action == a
  }

  /** Number of successful post responses among the events. */
  function SuccessfulPosts<P>(es: seq<Event<P>>): nat
    decreases |es|
  {
    if es == [] then 0
    else
      var e := es[|es| - 1];
      SuccessfulPosts(es[..|es| - 1]) + (if e.Response? && e.action == Post && e.outcome.Success? then 1 else 0)
  }

  /** Whether the last click or response of action `a` among the events was a click
      (Some(true)), a response (Some(false)), or there was none (None). */
  function LastOf<P>(es: seq<Event<P>>, a: Action): Option<bool>
    decreases |es|
  {
    if es == [] then None
    else
      var e := es[|es| - 1];
      if IsClick(e, a) then Some(true)
      else if IsResponse(e, a) then Some(false)
      else LastOf(es[..|es| - 1], a)
  }

  /** The state reached before each event of a run is itself reached, and the event can happen there. */
  lemma {:induction false} RunPrefix<P>(s: State<P>, es: seq<Event<P>>, j: nat)
    requires Run(s, es).Some?
    requires j < |es|
    ensures Run(s, es[..j]).Some?
    ensures Run(s, es[..j + 1]) == Step(Run(s, es[..j]).value, es[j])
    ensures Step(Run(s, es[..j]).value, es[j]).Some?
  {
    var n := |es| - 1;
    assert es[..j + 1][..j] == es[..j];
    if j < n {
      assert es[..n][..j] == es[..j];
      assert es[..n][..j + 1] == es[..j + 1];
      RunPrefix(s, es[..n], j);
    } else {
      assert es[..j + 1] == es;
    }
  }

  /** Running one more event is one more step from where the run got to. */
  lemma RunSnoc<P>(s: State<P>, es: seq<Event<P>>, e: Event<P>)
    ensures Run(s, es + [e]) == match Run(s, es)
                                case None => None
                                case Some(m) => Step(m, e)
  {
  }

  /** Once logged in, always logged in: no event sets `isLoggedIn` back to false. */
  lemma {:induction false} LoginMonotonic<P>(s: State<P>, es: seq<Event<P>>)
    requires Run(s, es).Some?
    requires s.isLoggedIn
    ensures Run(s, es).value.isLoggedIn
  {
    if es != [] {
      LoginMonotonic(s, es[..|es| - 1]);
    }
  }

  /** `isLoggedIn` only becomes true through a successful create or login response. */
  lemma {:induction false} LoginOnlyBySuccess<P>(s: State<P>, es: seq<Event<P>>)
    requires Run(s, es).Some?
    requires !s.isLoggedIn && Run(s, es).value.isLoggedIn
    ensures exists i :: 0 <= i < |es| && SignsInEvent(es[i])
  {
    var n := |es| - 1;
    if SignsInEvent(es[n]) {
    } else {
      LoginOnlyBySuccess(s, es[..n]);
      var i :| 0 <= i < n && SignsInEvent(es[..n][i]);
      assert es[i] == es[..n][i];
    }
  }

  /** While logged in, the page offers no create, login or fetch: no run from a logged-in
      state clicks any of them. */
  lemma {:induction false} LoggedInOffersOnlyPost<P>(s: State<P>, es: seq<Event<P>>)
    requires Run(s, es).Some?
    requires s.isLoggedIn
    ensures forall i :: 0 <= i < |es| && es[i].Click? ==> es[i].action == Post
  {
    if es != [] {
      var n := |es| - 1;
      LoggedInOffersOnlyPost(s, es[..n]);
      LoginMonotonic(s, es[..n]);
      forall i | 0 <= i < |es| && es[i].Click? ensures es[i].action == Post {
        if i < n {
          assert es[i] == es[..n][i];
        }
      }
    }
  }

  /** A run that ends logged out never clicked post. */
  lemma {:induction false} LoggedOutNeverPosts<P>(s: State<P>, es: seq<Event<P>>)
    requires Run(s, es).Some?
    requires !Run(s, es).value.isLoggedIn
    ensures forall i :: 0 <= i < |es| ==> !IsClick(es[i], Post)
  {
    if es != [] {
      var n := |es| - 1;
      var m := Run(s, es[..n]).value;
      assert !m.isLoggedIn;
      LoggedOutNeverPosts(s, es[..n]);
      forall i | 0 <= i < |es| ensures !IsClick(es[i], Post) {
        if i < n {
          assert es[i] == es[..n][i];
        }
      }
    }
  }

  /** The post log is append-only: the old log is a prefix of the new one, which is longer
      by exactly the number of successful post responses. */
  lemma {:induction false} PostLogAppendOnly<P>(s: State<P>, es: seq<Event<P>>)
    requires Run(s, es).Some?
    ensures s.postedContents <= Run(s, es).value.postedContents
    ensures |Run(s, es).value.postedContents| == |s.postedContents| + SuccessfulPosts(es)
  {
    if es != [] {
      PostLogAppendOnly(s, es[..|es| - 1]);
    }
  }

  /** A run in which no call succeeds leaves every result field and the login status as they were. */
  lemma {:induction false} FailuresKeepResults<P>(s: State<P>, es: seq<Event<P>>)
    requires Run(s, es).Some?
    requires forall i :: 0 <= i < |es| && es[i].Response? ==> es[i].outcome.Failure?
    ensures SameResults(s, Run(s, es).value)
  {
    if es != [] {
      var n := |es| - 1;
      forall i | 0 <= i < n && es[..n][i].Response? ensures es[..n][i].outcome.Failure? {
        assert es[..n][i] == es[i];
      }
      FailuresKeepResults(s, es[..n]);
    }
  }

  /** An action's flag is up exactly when its last click came after its last response:
      raised by the click, lowered by the response whatever the outcome, and left alone by
      every other event. */
  lemma {:induction false} FlagTracksLastEvent<P>(s: State<P>, es: seq<Event<P>>, a: Action)
    requires Run(s, es).Some?
    ensures Busy(Run(s, es).value, a) == match LastOf(es, a)
                                         case None => Busy(s, a)
                                         case Some(b) => b
  {
    if es != [] {
      FlagTracksLastEvent(s, es[..|es| - 1], a);
    }
  }

  /** After a click of `a` with no response of `a` later on, the last event of `a` is that click. */
  lemma {:induction false} ClickIsLast<P>(es: seq<Event<P>>, a: Action, i: nat)
    requires i < |es| && IsClick(es[i], a)
    requires forall k :: i < k < |es| ==> !IsResponse(es[k], a)
    ensures LastOf(es, a) == Some(true)
  {
    var n := |es| - 1;
    if i < n && !IsClick(es[n], a) {
      forall k | i < k < n ensures !IsResponse(es[..n][k], a) {
        assert es[..n][k] == es[k];
      }
      ClickIsLast(es[..n], a, i);
    }
  }

  /** A disabled button cannot be clicked twice: between two clicks of the same action
      there is always a response of that action, so at most one of its calls is in flight. */
  lemma SecondClickNeedsResponse<P>(s: State<P>, es: seq<Event<P>>, a: Action, i: nat, j: nat)
    requires Run(s, es).Some?
    requires i < j < |es|
    requires IsClick(es[i], a) && IsClick(es[j], a)
    ensures exists k :: i < k < j && IsResponse(es[k], a)
  {
    if forall k :: i < k < j ==> !IsResponse(es[k], a) {
      RunPrefix(s, es, j);
      var pre := es[..j];
      forall k | i < k < |pre| ensures !IsResponse(pre[k], a) {
        assert pre[k] == es[k];
      }
      ClickIsLast(pre, a, i);
      FlagTracksLastEvent(s, pre, a);
      assert false;
    }
  }

  /** While a post is in flight, its flag stays up and the message it captured stays as
      it was at the click: no event before its response rewrites it. */
  lemma {:induction false} PostInFlightKeepsText<P>(s: State<P>, xs: seq<Event<P>>, ys: seq<Event<P>>)
    requires Run(s, xs + [Click(Post)] + ys).Some?
    requires forall x :: 0 <= x < |ys| ==> !IsResponse(ys[x], Post)
    ensures Run(s, xs).Some?
    ensures Run(s, xs + [Click(Post)] + ys).value.posting
    ensures Run(s, xs + [Click(Post)] + ys).value.submittedText == Run(s, xs).value.textMessage
  {
    if ys == [] {
      assert xs + [Click(Post)] + ys == xs + [Click(Post)];
      RunSnoc(s, xs, Click(Post));
    } else {
      var n := |ys| - 1;
      var zs := xs + [Click(Post)] + ys[..n];
      assert xs + [Click(Post)] + ys == zs + [ys[n]];
      RunSnoc(s, zs, ys[n]);
      forall x | 0 <= x < n ensures !IsResponse(ys[..n][x], Post) {
        assert ys[..n][x] == ys[x];
      }
      PostInFlightKeepsText(s, xs, ys[..n]);
      StepKeepsPostText(Run(s, zs).value, ys[n]);
    }
  }

  /** One event other than the post's response, taken while a post is in flight. */
  lemma StepKeepsPostText<P>(m: State<P>, e: Event<P>)
    requires m.posting && !IsResponse(e, Post)
    requires Step(m, e).Some?
    ensures Step(m, e).value.posting && Step(m, e).value.submittedText == m.submittedText
  {
  }

  /** Each successful post appends exactly the message that was in the box when its button
      was clicked, whatever was typed or done in between. */
  lemma PostAppendsClickedText<P>(s: State<P>, es: seq<Event<P>>, j: nat, k: nat)
    requires Run(s, es).Some?
    requires j < k < |es|
    requires IsClick(es[j], Post)
    requires IsResponse(es[k], Post) && es[k].outcome.Success?
    requires forall x :: j < x < k ==> !IsResponse(es[x], Post)
    ensures Run(s, es[..j]).Some? && Run(s, es[..k]).Some? && Run(s, es[..k + 1]).Some?
    ensures Run(s, es[..k + 1]).value.postedContents ==
            Run(s, es[..k]).value.postedContents + [Run(s, es[..j]).value.textMessage]
  {
    RunPrefix(s, es, k);
    var xs, ys := es[..j], es[j + 1..k];
    SplitAtClick(es, j, k, ys);
    PostInFlightKeepsText(s, xs, ys);
    var m := Run(s, es[..k]).value;
    PostResponseAppends(m, es[k]);
  }

  /** The events before k, cut at the post click j. */
  lemma SplitAtClick<P>(es: seq<Event<P>>, j: nat, k: nat, ys: seq<Event<P>>)
    requires j < k <= |es| && IsClick(es[j], Post) && ys == es[j + 1..k]
    requires forall x :: j < x < k ==> !IsResponse(es[x], Post)
    ensures es[..k] == es[..j] + [Click(Post)] + ys
    ensures forall x :: 0 <= x < |ys| ==> !IsResponse(ys[x], Post)
  {
  }

  /** The response of an in-flight post, when it succeeds, appends the captured message. */
  lemma PostResponseAppends<P>(m: State<P>, e: Event<P>)
    requires m.posting && IsResponse(e, Post) && e.outcome.Success?
    ensures Step(m, e).Some?
    ensures Step(m, e).value.postedContents == m.postedContents + [m.submittedText]
  {
  }

  /** Fetching twice with the same response leaves the state the first fetch left:
      the managed profiles are overwritten, never accumulated. */
  lemma FetchIdempotent<P>(s: State<P>, o: Outcome<P>)
    requires Available(s, Fetch)
    ensures Run(s, [Click(Fetch), Response(Fetch, o)]).Some?
    ensures var t := Run(s, [Click(Fetch), Response(Fetch, o)]).value;
            Run(t, [Click(Fetch), Response(Fetch, o)]) == Some(t) &&
            t.managedProfiles == if o.Success? then Some(o.payload) else s.managedProfiles
  {
    var t := Complete(Begin(s, Fetch), Fetch, o);
    RunRound(s, Fetch, o);
    RunRound(t, Fetch, o);
    assert Complete(Begin(t, Fetch), Fetch, o) == t;
  }

  /** A round of one action, click then response, when nothing else is in flight: its flag is
      back down and no other flag is up. */
  lemma RoundClearsFlags<P>(s: State<P>, a: Action, o: Outcome<P>)
    requires Available(s, a)
    requires forall c :: !Busy(s, c)
    ensures Run(s, [Click(a), Response(a, o)]).Some?
    ensures forall c :: !Busy(Run(s, [Click(a), Response(a, o)]).value, c)
  {
    RunRound(s, a, o);
  }

  /** A click on an available action followed by its response is Begin then Complete. */
  lemma RunRound<P>(s: State<P>, a: Action, o: Outcome<P>)
    requires Available(s, a)
    ensures Run(s, [Click(a), Response(a, o)]) == Some(Complete(Begin(s, a), a, o))
  {
    RunSnoc(s, [], Click(a));
    RunSnoc(s, [Click(a)], Response(a, o));
  }

  /** A successful create from a fresh page: the profile result is the response, the user is
      logged in, no flag is up and no error is shown. */
  lemma CreateSucceeds<P>(walletAddr: Option<string>, p: P)
    ensures var es: seq<Event<P>> := [Typing(HandleField, "alice"), Typing(AddressField, "0xABC"), Click(Create), Response(Create, Success(p))];
            var r := Run(Initial(walletAddr), es);
            r.Some? && r.value.profileResult == Some(p) && r.value.isLoggedIn &&
            !r.value.loading && r.value.error == ""
  {
    var es: seq<Event<P>> := [Typing(HandleField, "alice"), Typing(AddressField, "0xABC"), Click(Create), Response(Create, Success(p))];
    var s0 := Initial<P>(walletAddr);
    RunSnoc(s0, [], es[0]);
    RunSnoc(s0, es[..1], es[1]);
    RunSnoc(s0, es[..2], es[2]);
    RunSnoc(s0, es[..3], es[3]);
    assert [] + [es[0]] == es[..1] && es[..1] + [es[1]] == es[..2];
    assert es[..2] + [es[2]] == es[..3] && es[..3] + [es[3]] == es;
  }

  /** A login rejected with the server message "profile not found" shows that message,
      leaves the user logged out and lowers the login flag. */
  lemma LoginFails<P>(walletAddr: Option<string>)
    ensures var es: seq<Event<P>> := [Typing(ProfileIdField, "42"), Click(Login), Response(Login, Failure(Some("profile not found")))];
            var r := Run(Initial(walletAddr), es);
            r.Some? && r.value.error == "profile not found" && !r.value.isLoggedIn &&
            !r.value.loadingAuth && r.value.authResult == None
  {
    var es: seq<Event<P>> := [Typing(ProfileIdField, "42"), Click(Login), Response(Login, Failure(Some("profile not found")))];
    var s0 := Initial<P>(walletAddr);
    RunSnoc(s0, [], es[0]);
    RunSnoc(s0, es[..1], es[1]);
    RunSnoc(s0, es[..2], es[2]);
    assert [] + [es[0]] == es[..1] && es[..1] + [es[1]] == es[..2] && es[..2] + [es[2]] == es;
  }

  /** A success does not clear the error: a fetch that fails while a create is in flight
      leaves its message on the page after the create succeeds. */
  lemma SuccessKeepsEarlierError<P>(p: P)
    ensures var es: seq<Event<P>> := [Click(Fetch), Click(Create), Response(Fetch, Failure(None)), Response(Create, Success(p))];
            var r := Run(Initial(None), es);
            r.Some? && r.value.isLoggedIn && r.value.error == FetchFallback
  {
    var es: seq<Event<P>> := [Click(Fetch), Click(Create), Response(Fetch, Failure(None)), Response(Create, Success(p))];
    var s0 := Initial<P>(None);
    RunSnoc(s0, [], es[0]);
    RunSnoc(s0, es[..1], es[1]);
    RunSnoc(s0, es[..2], es[2]);
    RunSnoc(s0, es[..3], es[3]);
    assert [] + [es[0]] == es[..1] && es[..1] + [es[1]] == es[..2];
    assert es[..2] + [es[2]] == es[..3] && es[..3] + [es[3]] == es;
  }
}
