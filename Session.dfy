/** The session slot: at most one bound user per thread of control. */
module Session {
  import opened Common
  import opened Model

  class SessionContext {
    /** The bound user, or None when nobody is logged in. */
    var current: Option<User>

    constructor ()
      ensures current == None
    {
      current := None;
    }

    /** Binding replaces whatever was bound before; binding None logs out. */
    method SetCurrentUser(u: Option<User>)
      modifies this
      ensures current == u
      ensures u.None? ==> !IsLoggedIn()
    {
      current := u;
    }

    method GetCurrentUser() returns (u: Option<User>)
      ensures u == current
      ensures u.Some? <==> IsLoggedIn()
    {
      u := current;
    }

    /** isLoggedIn: someone is bound exactly when the slot holds a user. */
    predicate IsLoggedIn()
      reads this
      ensures IsLoggedIn() <==> current != None
    {
      current.Some?
    }

    method Clear()
      modifies this
      ensures current == None && !IsLoggedIn()
    {
      current := None;
    }
  }

  /**
   * A sequence of session calls: the later binding wins, and after clearing
   * nobody is bound.
   */
  method RebindThenClear(s: SessionContext, a: User, b: User) returns (first: Option<User>, second: Option<User>, after: Option<User>)
    modifies s
    ensures first == Some(a) && second == Some(b) && after == None
    ensures !s.IsLoggedIn()
  {
    s.SetCurrentUser(Some(a));
    first := s.GetCurrentUser();
    s.SetCurrentUser(Some(b));
    second := s.GetCurrentUser();
    s.Clear();
    after := s.GetCurrentUser();
  }
}
