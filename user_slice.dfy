/** The signed-in user's session state: an identifier, an e-mail address and a role, each possibly `null`. */
module UserSlice {
  import opened Wrappers

  /** The payload of `setUser`, and the value of the three fields taken together. */
  datatype User = User(uid: Option<string>, email: Option<string>, role: Option<string>)

  /** `initialState`: nobody is signed in. */
  const SignedOut: User := User(None, None, None)

  /** The `state` of the slice. */
  class UserState {
    var uid: Option<string>
    var email: Option<string>
    var role: Option<string>

    /** The three fields as one value. */
    function Current(): (u: User)
      reads this
      ensures u.uid == uid && u.email == email && u.role == role
    {
      User(uid, email, role)
    }

    constructor ()
      ensures Current() == SignedOut
    {
      uid := None;
      email := None;
      role := None;
    }

    /** Copies the payload's three fields; nothing of the previous user remains. */
    method SetUser(payload: User)
      modifies this
      ensures Current() == payload
    {
      uid := payload.uid;
      email := payload.email;
      role := payload.role;
    }

    /**
     * Back to the initial state, whatever the state was before: clearing twice, or
     * clearing after any `setUser`, ends in the same state.
     */
    method ClearUser()
      modifies this
      ensures Current() == SignedOut
    {
      uid := None;
      email := None;
      role := None;
    }
  }
}
