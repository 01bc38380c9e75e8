/** The authentication gate at the root of the application: which of four
    screens is shown, given the identity provider's and the profile query's
    status flags. */
module AuthGate {

  /** The profile query's data: not yet available (`undefined`, also after a
      failed query), `null` for a caller with no profile, or a profile. */
  datatype ProfileData = Undefined | Null | Profile(name: string)

  /** The inputs of the decision. */
  datatype GateInput = GateInput(
    isInitializing: bool,
    hasIdentity: bool,
    profileLoading: bool,
    isFetched: bool,
    profile: ProfileData)

  datatype Screen = Loading | SignIn | ProfileSetup | Children

  /** The four checks in the source's priority order. The screens are
      mutually exclusive and together cover every input; the children are
      reached only by a signed-in identity whose profile query has completed.
      A failed profile query (fetched, data still undefined) lets the caller
      through without profile setup. */
  function Decide(g: GateInput): (r: Screen)
    ensures r == Loading <==> g.isInitializing || (g.hasIdentity && !g.isFetched)
    ensures r == SignIn <==> !g.isInitializing && !g.hasIdentity
    ensures r == ProfileSetup <==>
      !g.isInitializing && g.hasIdentity && g.isFetched && !g.profileLoading && g.profile == Null
    ensures r == Children <==>
      !g.isInitializing && g.hasIdentity && g.isFetched && (g.profileLoading || g.profile != Null)
  {
    var showProfileSetup := g.hasIdentity && !g.profileLoading && g.isFetched && g.profile == Null;
    if g.isInitializing || (g.hasIdentity && !g.isFetched) then Loading
    else if !g.hasIdentity then SignIn
    else if showProfileSetup then ProfileSetup
    else Children
  }
}
