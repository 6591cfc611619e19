/** The session object every page receives from `useSession`
    (src/controls/Auth/useSession.ts:6-13). Fetching it is not modelled;
    pages take it as an input, `None` standing for the `null` session. */
module Sessions {
  import opened Wrappers

  datatype Session = Session(authenticated: bool, userId: Option<string>, roles: Option<seq<string>>)

  /** `session?.roles?.includes(role)` */
  predicate HasRole(session: Option<Session>, role: string)
  {
    session.Some? && session.value.roles.Some? && role in session.value.roles.value
  }
}
