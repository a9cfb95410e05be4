/** The session state machine of the profile page: the values of the component's state
    fields, what each of the four handlers does to them when it starts and when its remote
    call resolves, which actions the page offers, and runs of such steps. */
module Session {
  import opened Wrappers

  /** The four user actions, one per async handler of the component. */
  datatype Action = Create | Fetch | Login | Post

  /** How a handler's single remote call resolved: the response body, or the `error`
      field of the error response's body (None when the field or the response is absent). */
  datatype Outcome<P> = Success(payload: P) | Failure(serverError: Option<string>)

  /** The text inputs of the page. */
  datatype Input = HandleField | AddressField | ProfileIdField | MessageField

  /** The fixed messages of the handlers. */
  const CreateFallback := "An unknown error occurred"
  const FetchFallback := "An error occurred while fetching managed profiles"
  const LoginFallback := "An error occurred during login"
  const PostFallback := "An error occurred while posting content"
  const PostedMessage := "Content posted successfully!"

  /** The values of the component's state fields. `submittedText` is the message the running
      post handler captured when it started (its closure's `textMessage`). */
  datatype State<P> = State(
    handle: string,
    address: Option<string>,
    profileId: string,
    textMessage: string,
    profileResult: Option<P>,
    authResult: Option<P>,
    managedProfiles: Option<P>,
    postedContents: seq<string>,
    postResult: Option<string>,
    loading: bool,
    loadingProfiles: bool,
    loadingAuth: bool,
    posting: bool,
    error: string,
    isLoggedIn: bool,
    submittedText: string)

  /** The state when the page mounts; the wallet address comes from the environment and may be undefined. */
  function Initial<P>(walletAddr: Option<string>): (s: State<P>)
    ensures forall a :: !Busy(s, a)
    ensures !s.isLoggedIn && s.error == "" && s.postedContents == []
    ensures s.profileResult == s.authResult == s.managedProfiles == None && s.postResult == None
    ensures s.address == walletAddr && s.handle == s.profileId == s.textMessage == ""
  {
    State("", walletAddr, "", "", None, None, None, [], None, false, false, false, false, "", false, "")
  }

  /** The busy flag each action raises while its call is in flight. */
  function Busy<P>(s: State<P>, a: Action): bool
  {
    match a
    case Create => s.loading
    case Fetch => s.loadingProfiles
    case Login => s.loadingAuth
    case Post => s.posting
  }

  function WithBusy<P>(s: State<P>, a: Action, b: bool): (t: State<P>)
    ensures Busy(t, a) == b
    ensures forall c :: c != a ==> Busy(t, c) == Busy(s, c)
  {
    match a
    case Create => s.(loading := b)
    case Fetch => s.(loadingProfiles := b)
    case Login => s.(loadingAuth := b)
    case Post => s.(posting := b)
  }

  /** The actions whose success logs the user in. */
  predicate SignsIn(a: Action)
  {
    a == Create || a == Login
  }

  /** Whether the page shows the action's button enabled: create, login and fetch only
      while logged out, post only while logged in, and no button while its own flag is up. */
  predicate Available<P>(s: State<P>, a: Action)
  {
    (if a == Post then s.isLoggedIn else !s.isLoggedIn) && !Busy(s, a)
  }

  function Fallback(a: Action): string
  {
    match a
    case Create => CreateFallback
    case Fetch => FetchFallback
    case Login => LoginFallback
    case Post => PostFallback
  }

  /** `err.response?.data?.error || fallback`: the server's message when it is present and
      not the empty string, which JavaScript treats as false, and the handler's text otherwise. */
  function ErrorMessage(serverError: Option<string>, a: Action): (m: string)
    ensures m != ""
    ensures m == Fallback(a) || serverError == Some(m)
    ensures (serverError.Some? && serverError.value != "") <==> serverError == Some(m)
  {
    match serverError
    case Some(e) => if e != "" then e else Fallback(a)
    case None => Fallback(a)
  }

  /** The fields a handler writes as its result, and the login status. */
  ghost predicate SameResults<P>(s: State<P>, t: State<P>)
  {
    t.profileResult == s.profileResult && t.authResult == s.authResult &&
    t.managedProfiles == s.managedProfiles && t.postedContents == s.postedContents &&
    t.postResult == s.postResult && t.isLoggedIn == s.isLoggedIn
  }

  ghost predicate SameInputs<P>(s: State<P>, t: State<P>)
  {
    t.handle == s.handle && t.address == s.address &&
    t.profileId == s.profileId && t.textMessage == s.textMessage
  }

  /** What a handler does before its remote call: raise its own flag and clear the error. */
  function Begin<P>(s: State<P>, a: Action): (t: State<P>)
    requires Available(s, a)
    ensures Busy(t, a) && t.error == ""
    ensures forall c :: c != a ==> Busy(t, c) == Busy(s, c)
    ensures SameResults(s, t) && SameInputs(s, t)
    ensures t.submittedText == if a == Post then s.textMessage else s.submittedText
  {
    WithBusy(s, a, true).(error := "", submittedText := if a == Post then s.textMessage else s.submittedText)
  }

  /** What a handler does once its call resolves: on success write its result fields, on
      failure write the error, and in both cases lower its own flag. */
  function Complete<P>(s: State<P>, a: Action, o: Outcome<P>): (t: State<P>)
    requires Busy(s, a)
    ensures !Busy(t, a)
    ensures forall c :: c != a ==> Busy(t, c) == Busy(s, c)
    ensures SameInputs(s, t) && t.submittedText == s.submittedText
    ensures o.Failure? ==> SameResults(s, t) && t.error == ErrorMessage(o.serverError, a)
    ensures o.Success? ==> t.error == s.error
    ensures t.isLoggedIn <==> s.isLoggedIn || (o.Success? && SignsIn(a))
    ensures t.profileResult == if o.Success? && a == Create then Some(o.payload) else s.profileResult
    ensures t.authResult == if o.Success? && a == Login then Some(o.payload) else s.authResult
    ensures t.managedProfiles == if o.Success? && a == Fetch then Some(o.payload) else s.managedProfiles
    ensures t.postedContents == if o.Success? && a == Post then s.postedContents + [s.submittedText] else s.postedContents
    ensures t.postResult == if o.Success? && a == Post then Some(PostedMessage) else s.postResult
  {
    var u := WithBusy(s, a, false);
    match o
    case Failure(e) => u.(error := ErrorMessage(e, a))
    case Success(p) =>
      match a
      case Create => u.(profileResult := Some(p), isLoggedIn := true)
      case Fetch => u.(managedProfiles := Some(p))
      case Login => u.(authResult := Some(p), isLoggedIn := true)
      case Post => u.(postResult := Some(PostedMessage), postedContents := s.postedContents + [s.submittedText])
  }

  /** Whether the page shows the input: the create and login forms only while logged out,
      the message box only while logged in. */
  predicate Shown<P>(s: State<P>, f: Input)
  {
    if f == MessageField then s.isLoggedIn else !s.isLoggedIn
  }

  /** Typing into one of the page's inputs. */
  function EditInput<P>(s: State<P>, f: Input, v: string): (t: State<P>)
    ensures SameResults(s, t) && t.error == s.error && t.submittedText == s.submittedText
    ensures forall a :: Busy(t, a) == Busy(s, a)
    ensures t.handle == if f == HandleField then v else s.handle
    ensures t.address == if f == AddressField then Some(v) else s.address
    ensures t.profileId == if f == ProfileIdField then v else s.profileId
    ensures t.textMessage == if f == MessageField then v else s.textMessage
  {
    match f
    case HandleField => s.(handle := v)
    case AddressField => s.(address := Some(v))
    case ProfileIdField => s.(profileId := v)
    case MessageField => s.(textMessage := v)
  }

  /** Something that happens on the page: a click on an action's button, the resolution of
      an action's remote call, or typing into an input. */
  datatype Event<P> = Click(action: Action) | Response(action: Action, outcome: Outcome<P>) | Typing(field: Input, text: string)

  /** One event; None when the page cannot produce it in this state (a click on a button
      that is hidden or disabled, a response to a call that is not in flight, or typing
      into an input that is hidden). */
  function Step<P>(s: State<P>, e: Event<P>): (r: Option<State<P>>)
    ensures r.Some? <==> match e
                         case Click(a) => Available(s, a)
                         case Response(a, _) => Busy(s, a)
                         case Typing(f, _) => Shown(s, f)
  {
    match e
    case Click(a) => if Available(s, a) then Some(Begin(s, a)) else None
    case Response(a, o) => if Busy(s, a) then Some(Complete(s, a, o)) else None
    case Typing(f, v) => if Shown(s, f) then Some(EditInput(s, f, v)) else None
  }

  /** The events in order, from the last one back; None when some event cannot happen. */
  function Run<P>(s: State<P>, es: seq<Event<P>>): Option<State<P>>
    decreases |es|
  {
    if es == [] then Some(s)
    else
      match Run(s, es[..|es| - 1])
      case None => None
      case Some(m) => Step(m, es[|es| - 1])
  }
}
