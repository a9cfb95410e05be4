/** The `Profile` page component: its state fields and the two halves of each async handler,
    the synchronous start before the remote call and the continuation once the call resolves.
    Each method says what the component's state becomes, as the matching function of module
    Session applied to the state before; what those functions keep and change is proved there
    and in module SessionTraces. */
module ProfilePage {
  import opened Wrappers
  import opened Session

  class ProfileComponent<P> {
    // form inputs
    var handle: string
    var address: Option<string>
    var profileId: string
    var textMessage: string
    // results of the remote calls
    var authResult: Option<P>
    var profileResult: Option<P>
    var managedProfiles: Option<P>
    var postedContents: seq<string>
    var postResult: Option<string>
    // one busy flag per handler
    var loading: bool
    var loadingProfiles: bool
    var loadingAuth: bool
    var posting: bool
    // status
    var error: string
    var isLoggedIn: bool
    // the message the running post handler captured when it started
    var submittedText: string

    /** The component's state as a value. */
    function Snapshot(): State<P>
      reads this
    {
      State(handle, address, profileId, textMessage, profileResult, authResult, managedProfiles,
            postedContents, postResult, loading, loadingProfiles, loadingAuth, posting, error,
            isLoggedIn, submittedText)
    }

    /** Mounting the page; `walletAddr` is the environment's wallet address, possibly undefined. */
    constructor (walletAddr: Option<string>)
      ensures Snapshot() == Initial(walletAddr)
    {
      handle := "";
      address := walletAddr;
      profileId := "";
      authResult := None;
      profileResult := None;
      managedProfiles := None;
      loading := false;
      loadingProfiles := false;
      loadingAuth := false;
      textMessage := "";
      postedContents := [];
      posting := false;
      postResult := None;
      error := "";
      isLoggedIn := false;
      submittedText := "";
    }

    /** The handle, address and profile-id inputs are shown only while logged out, the
        message box only while logged in. */
    method SetHandle(v: string)
      requires !isLoggedIn
      modifies this`handle
      ensures Snapshot() == EditInput(old(Snapshot()), HandleField, v)
    {
      handle := v;
    }

    method SetAddress(v: string)
      requires !isLoggedIn
      modifies this`address
      ensures Snapshot() == EditInput(old(Snapshot()), AddressField, v)
    {
      address := Some(v);
    }

    method SetProfileId(v: string)
      requires !isLoggedIn
      modifies this`profileId
      ensures Snapshot() == EditInput(old(Snapshot()), ProfileIdField, v)
    {
      profileId := v;
    }

    method SetTextMessage(v: string)
      requires isLoggedIn
      modifies this`textMessage
      ensures Snapshot() == EditInput(old(Snapshot()), MessageField, v)
    {
      textMessage := v;
    }

    /** `createProfile` up to its remote call; the button is shown only while logged out
        and is disabled while `loading`. */
    method BeginCreateProfile()
      requires !isLoggedIn && !loading
      modifies this`loading, this`error
      ensures loading && error == ""
      ensures Snapshot() == Begin(old(Snapshot()), Create)
    {
      loading := true;
      error := "";
    }

    /** `createProfile` after its remote call resolved with `outcome`. */
    method CompleteCreateProfile(outcome: Outcome<P>)
      requires loading
      modifies this`profileResult, this`isLoggedIn, this`error, this`loading
      ensures !loading
      ensures Snapshot() == Complete(old(Snapshot()), Create, outcome)
    {
      match outcome {
        case Success(data) =>
          profileResult := Some(data);
          isLoggedIn := true;
        case Failure(serverError) =>
          error := ErrorMessage(serverError, Create);
      }
      loading := false;
    }

    /** `fetchManagedProfiles` up to its remote call; the button is shown only while logged
        out and is disabled while `loadingProfiles`. */
    method BeginFetchManagedProfiles()
      requires !isLoggedIn && !loadingProfiles
      modifies this`loadingProfiles, this`error
      ensures loadingProfiles && error == ""
      ensures Snapshot() == Begin(old(Snapshot()), Fetch)
    {
      loadingProfiles := true;
      error := "";
    }

    /** `fetchManagedProfiles` after its remote call resolved with `outcome`; a response is
        stored as it came, single record or array alike. */
    method CompleteFetchManagedProfiles(outcome: Outcome<P>)
      requires loadingProfiles
      modifies this`managedProfiles, this`error, this`loadingProfiles
      ensures !loadingProfiles
      ensures Snapshot() == Complete(old(Snapshot()), Fetch, outcome)
    {
      match outcome {
        case Success(data) =>
          managedProfiles := Some(data);
        case Failure(serverError) =>
          error := ErrorMessage(serverError, Fetch);
      }
      loadingProfiles := false;
    }

    /** `loginProfile` up to its remote call; the button is shown only while logged out and
        is disabled while `loadingAuth`. */
    method BeginLoginProfile()
      requires !isLoggedIn && !loadingAuth
      modifies this`loadingAuth, this`error
      ensures loadingAuth && error == ""
      ensures Snapshot() == Begin(old(Snapshot()), Login)
    {
      loadingAuth := true;
      error := "";
    }

    /** `loginProfile` after its remote call resolved with `outcome`. */
    method CompleteLoginProfile(outcome: Outcome<P>)
      requires loadingAuth
      modifies this`authResult, this`isLoggedIn, this`error, this`loadingAuth
      ensures !loadingAuth
      ensures Snapshot() == Complete(old(Snapshot()), Login, outcome)
    {
      match outcome {
        case Success(data) =>
          authResult := Some(data);
          isLoggedIn := true;
        case Failure(serverError) =>
          error := ErrorMessage(serverError, Login);
      }
      loadingAuth := false;
    }

    /** `postContent` up to its remote call; the form is shown only while logged in and its
        button is disabled while `posting`. The handler keeps the message it was started with. */
    method BeginPostContent()
      requires isLoggedIn && !posting
      modifies this`posting, this`error, this`submittedText
      ensures posting && error == "" && submittedText == textMessage
      ensures Snapshot() == Begin(old(Snapshot()), Post)
    {
      posting := true;
      error := "";
      submittedText := textMessage;
    }

    /** `postContent` after its remote call resolved with `outcome`; the response body is
        only logged, so a success appends the submitted message whatever the body. */
    method CompletePostContent(outcome: Outcome<P>)
      requires posting
      modifies this`postResult, this`postedContents, this`error, this`posting
      ensures !posting
      ensures outcome.Success? ==> postedContents == old(postedContents) + [submittedText]
      ensures Snapshot() == Complete(old(Snapshot()), Post, outcome)
    {
      match outcome {
        case Success(_) =>
          postResult := Some(PostedMessage);
          postedContents := postedContents + [submittedText];
        case Failure(serverError) =>
          error := ErrorMessage(serverError, Post);
      }
      posting := false;
    }
  }
}
