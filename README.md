# Profile page session state machine

A Dafny model of the `Profile` page component of the OpenLens client (`pages/profile.tsx`).
The page lets a user create a Lens profile, list the profiles a wallet manages, log in to a profile and,
once logged in, post content. The model covers the component's state fields and the four async
handlers that change them: `createProfile`, `fetchManagedProfiles`, `loginProfile` and `postContent`.
It also covers the conditions under which the rendered page offers each action.

Every handler has the same shape. It raises its own busy flag and clears `error`, then makes one remote
call. When the call resolves, it writes its result fields on success or `error` on failure, and it
always lowers its flag. The model splits each handler at its `await`:

- `Session.Begin` is the synchronous start.
- `Session.Complete` is the continuation, given the call's outcome as a parameter. The outcome is
  `Success(payload)` or `Failure(serverError)`.

Files and modules:

- `wrappers.dfy`, module `Wrappers`: `Option`, for the fields that hold `null` or `undefined`.
- `session.dfy`, module `Session`: the state as a value (`State`), the handler halves as functions
  (`Begin`, `Complete`, `EditInput`), the page's availability rules (`Available`), and runs of page
  events (`Step`, `Run`).
  An event is a click on an action's button, the response to an action's call, or typing into an input.
  A click is possible only when the button is shown and enabled. A response is possible only while that
  action's call is in flight. Typing is possible only into an input the page shows.
- `traces.dfy`, module `SessionTraces`: what every run of events does. It covers login monotonicity,
  the append-only post log, flags lowered whatever the outcome, the absence of a second in-flight call of
  one action, failures that touch only `error`, fetch idempotence, and each successful post appending the
  text seen at its click. It also works through two scenarios: a successful create and a rejected login.
- `profile.dfy`, module `ProfilePage`: class `ProfileComponent<P>`, with the component's state fields
  as mutable fields. Each handler half is a method that assigns exactly the fields the source assigns, plus
  `submittedText` at the start of a post, with a field-level `modifies` frame. Its `ensures` ties the new
  state to the `Session` function applied to the old state.

Server response bodies are an abstract type parameter `P`. `managedProfiles` keeps the fetch response as
it came, single record or array alike, because the page stores `response.data` unchanged.

Behaviour of the code worth knowing:

- No handler checks for empty inputs. Only the button's `disabled` attribute stops a second click while a
  call is in flight. So a click is possible whenever the button is shown and its own flag is down
  (`Session.Available`), whatever the inputs hold.
- A successful call does not clear `error`. `error` is cleared only at the start of a handler. A failure
  of another handler in flight meanwhile therefore stays on the page (`SessionTraces.SuccessKeepsEarlierError`).
- `managedProfiles` is not normalised to a sequence.

`postContent` appends the `textMessage` value its closure saw when the click started it. The model
records that value in `submittedText` at `Begin`. Typing into the message box while the post is in flight
does not change what is appended.

## Model

| member | source | states |
|---|---|---|
| `Session.Initial` | pages/profile.tsx:5-21 | On mount no flag is up, the user is logged out, `error` is empty, the post log is empty, and no result is held. The address is the environment's wallet address, possibly undefined. The other inputs are empty. |
| `Session.ErrorMessage` | pages/profile.tsx:36-37 | The failure message is never empty. It is the server's `error` field exactly when that field is present and non-empty, and otherwise the handler's fixed fallback. The four fallbacks are at lines 37, 54, 75 and 96. |
| `Session.Begin` | pages/profile.tsx:23-25 | Starting a handler raises its own flag and clears `error`, leaves every other action's flag, every result field, the login status and the inputs as they were, and for a post captures the current message. This holds for all four handlers (lines 43-45, 61-63, 81-83). |
| `Session.Complete` | pages/profile.tsx:34-40 | When a call resolves, its own flag goes down whatever the outcome, and the other flags and the inputs stay as they were. A failure sets `error` to `ErrorMessage` and changes no result field and not the login status. A success leaves `error` alone and writes only its own result fields. Create sets `profileResult` and logs in. Fetch replaces `managedProfiles` wholesale (line 50). Login sets `authResult` and logs in (lines 72-73). Post appends the captured message to the log and sets the fixed success text (lines 91-92). |
| `Session.EditInput` | pages/profile.tsx:116 | Typing into an input changes only that input; the address becomes defined. No flag, result, error or login status changes (also lines 125, 148, 224). |
| `Session.Step` | pages/profile.tsx:129-131 | A click can happen exactly when the action is available. Create, login and fetch are available only while logged out, and post only while logged in (lines 105, 204, 215). No button can be clicked while its own flag is up (lines 154, 207, 229). A response can happen exactly while its call is in flight. Typing can happen exactly while its input is shown: handle, address and profile id only while logged out (lines 105-161), the message box only while logged in (lines 215-226). |
| `SessionTraces.LoginMonotonic` | pages/profile.tsx:73 | In every run from a logged-in state, the user is still logged in at the end. No handler sets `isLoggedIn` to false. |
| `SessionTraces.LoginOnlyBySuccess` | pages/profile.tsx:34-35 | A run that starts logged out and ends logged in contains a successful create or login response. |
| `SessionTraces.LoggedInOffersOnlyPost` | pages/profile.tsx:105 | A run from a logged-in state contains no click of create, login or fetch. |
| `SessionTraces.LoggedOutNeverPosts` | pages/profile.tsx:215 | A run that ends logged out contains no click of post. |
| `SessionTraces.PostLogAppendOnly` | pages/profile.tsx:92 | Over any run, the old post log is a prefix of the new one. The new log is longer by exactly the number of successful post responses. |
| `SessionTraces.PostInFlightKeepsText` | pages/profile.tsx:81-83 | In any run, after a post click and until that post's response, the post flag stays up and the captured message stays the text that was in the box at the click. Other clicks, other responses and typing do not change it. |
| `SessionTraces.PostAppendsClickedText` | pages/profile.tsx:92 | In any run, a successful post response appends exactly one entry to the log. The entry is the text that was in the message box when that post's button was clicked, whatever happened in between. |
| `SessionTraces.FailuresKeepResults` | pages/profile.tsx:51-55 | A run whose responses are all failures leaves all of these as they were: `profileResult`, `authResult`, `managedProfiles`, `postedContents`, `postResult` and `isLoggedIn`. |
| `SessionTraces.FlagTracksLastEvent` | pages/profile.tsx:56-58 | After any run, an action's flag is up exactly when that action's last event was a click rather than a response. The flag is unchanged when the action had no event. |
| `SessionTraces.SecondClickNeedsResponse` | pages/profile.tsx:129-131 | Between any two clicks of the same action in a run there is a response of that action, so one action never has two calls in flight. |
| `SessionTraces.FetchIdempotent` | pages/profile.tsx:50 | Repeating a fetch round with the same outcome leaves the whole state exactly as the first round left it. After a success, `managedProfiles` is the response itself. |
| `SessionTraces.RoundClearsFlags` | pages/profile.tsx:38-40 | A click followed by its response, started with no call in flight, ends with every flag down, whether the call succeeded or failed. |
| `SessionTraces.CreateSucceeds` | pages/profile.tsx:23-41 | Typing handle "alice" and address "0xABC" on a fresh page, then a create that succeeds with payload `p`, gives `profileResult == Some(p)`, logged in, `loading` down and an empty `error`. |
| `SessionTraces.LoginFails` | pages/profile.tsx:61-79 | A login on a fresh page rejected with server message "profile not found" gives that `error`, still logged out, `loadingAuth` down and no `authResult`. |
| `SessionTraces.SuccessKeepsEarlierError` | pages/profile.tsx:34-35 | A fetch failing while a create is in flight, followed by the create's success, ends logged in with the fetch fallback message still in `error`. |
| `ProfilePage.ProfileComponent.constructor` | pages/profile.tsx:5-21 | The component's fields start as `Session.Initial` of the wallet address. |
| `ProfilePage.ProfileComponent.SetHandle` | pages/profile.tsx:116 | Callable only while logged out, when the input is shown. Only `handle` changes, as `Session.EditInput` says. |
| `ProfilePage.ProfileComponent.SetAddress` | pages/profile.tsx:125 | Callable only while logged out. Only `address` changes, as `Session.EditInput` says. |
| `ProfilePage.ProfileComponent.SetProfileId` | pages/profile.tsx:148 | Callable only while logged out. Only `profileId` changes, as `Session.EditInput` says. |
| `ProfilePage.ProfileComponent.SetTextMessage` | pages/profile.tsx:224 | Callable only while logged in, when the message box is shown. Only `textMessage` changes, as `Session.EditInput` says. |
| `ProfilePage.ProfileComponent.BeginCreateProfile` | pages/profile.tsx:23-25 | Callable only while logged out with `loading` down. Sets `loading` and clears `error`, and may modify nothing else. The new state is `Session.Begin` for create. |
| `ProfilePage.ProfileComponent.CompleteCreateProfile` | pages/profile.tsx:26-40 | Lowers `loading`. It may modify only `profileResult`, `isLoggedIn`, `error` and `loading`. The new state is `Session.Complete` for create. |
| `ProfilePage.ProfileComponent.BeginFetchManagedProfiles` | pages/profile.tsx:43-45 | Callable only while logged out with `loadingProfiles` down. Sets that flag and clears `error`. The new state is `Session.Begin` for fetch. |
| `ProfilePage.ProfileComponent.CompleteFetchManagedProfiles` | pages/profile.tsx:46-58 | Lowers `loadingProfiles`. It may modify only `managedProfiles`, `error` and that flag. The new state is `Session.Complete` for fetch. |
| `ProfilePage.ProfileComponent.BeginLoginProfile` | pages/profile.tsx:61-63 | Callable only while logged out with `loadingAuth` down. Sets that flag and clears `error`. The new state is `Session.Begin` for login. |
| `ProfilePage.ProfileComponent.CompleteLoginProfile` | pages/profile.tsx:64-78 | Lowers `loadingAuth`. It may modify only `authResult`, `isLoggedIn`, `error` and that flag. The new state is `Session.Complete` for login. |
| `ProfilePage.ProfileComponent.BeginPostContent` | pages/profile.tsx:81-83 | Callable only while logged in with `posting` down. Sets `posting`, clears `error` and keeps the current message as the one to append. The new state is `Session.Begin` for post. |
| `ProfilePage.ProfileComponent.CompletePostContent` | pages/profile.tsx:84-100 | Lowers `posting`. On success it appends exactly the kept message to `postedContents`. It may modify only `postResult`, `postedContents`, `error` and `posting`. The new state is `Session.Complete` for post. |

## Left out

- The HTTP calls, their URLs and request bodies (lines 27-33, 47-49, 65-71, 85-90) are network I/O. Each call is represented only by the outcome given to `Complete`. This includes the unencoded wallet address in the fetch URL.
- The server's `error` field is modelled as an absent-or-string value. A truthy non-string value (an object, a non-zero number) would be stored in `error` as it is. An `error` of another falsy kind (0, false, null) takes the fallback like the empty string. Neither case is modelled.
- `process.env.WALLET_ADDR` is environment input. It is the constructor's `walletAddr` parameter, which may be None for undefined.
- The JSX markup, styling, the loading and error paragraphs, the managed-profiles and posted-content lists, and the welcome text (lines 103-251) are presentation. Only the conditions under which buttons are shown and enabled are kept, as `Session.Available` and as the `Begin*` methods' requires.
- `console.log(response.data)` (line 93) is a side effect with no state change.
- The interleaving of handlers across `await` is modelled only as an arbitrary order of atomic click, response and typing events. React's batching of state setters and re-render timing are not modelled. The model assumes a disabled button cannot be clicked before the re-render that disables it.
- A handler is not a single Dafny method. It is its two halves, `Begin*` and `Complete*`. A `Complete*` method requires its own flag to be up, because it is the continuation of a started call.
