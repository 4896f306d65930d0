/** The team invitation form: the order of its checks and the reset after an invite. */
module TeamInvite {
  /** What handleInvite does with the entered email and role. */
  datatype InviteDecision = MissingInformation | AlreadyInvited | AlreadyMember | Invite

  /** `list.some(x => x.email === email)`: a case-sensitive exact match. */
  predicate Listed(emails: seq<string>, email: string) {
    exists k :: 0 <= k < |emails| && emails[k] == email
  }

  /** The decision of handleInvite, checks in source order. */
  function Decide(email: string, role: string, members: seq<string>, pending: seq<string>): (d: InviteDecision)
    ensures d == Invite <==> email != [] && role != [] && !Listed(pending, email) && !Listed(members, email)
  {
    if email == [] || role == [] then MissingInformation
    else if Listed(pending, email) then AlreadyInvited
    else if Listed(members, email) then AlreadyMember
    else Invite
  }

  /** A pending invitation is reported before membership: an address that is both invited
      and a member is reported as already invited. */
  lemma PendingCheckedBeforeMembership(email: string, role: string, members: seq<string>, pending: seq<string>)
    requires email != [] && role != [] && Listed(pending, email)
    ensures Decide(email, role, members, pending) == AlreadyInvited
  {
  }

  /** Missing fields are reported whatever the lists hold. */
  lemma MissingFieldsFirst(email: string, role: string, members: seq<string>, pending: seq<string>)
    requires email == [] || role == []
    ensures Decide(email, role, members, pending) == MissingInformation
  {
  }

  /** Only an exact match counts: an address differing in case from every listed one is not
      a duplicate. */
  lemma CaseSensitiveMatch(email: string, other: string, role: string)
    requires email != [] && role != [] && email != other
    ensures Decide(email, role, [other], [other]) == Invite
  {
  }

  /** The form's state; `invited` records the calls of the `onInvite` callback. */
  class InviteForm {
    var inviteEmail: string
    var selectedRole: string
    var invited: seq<(string, string)>

    constructor ()
      ensures inviteEmail == [] && selectedRole == [] && invited == []
    {
      inviteEmail := [];
      selectedRole := [];
      invited := [];
    }

    /** handleInvite: an accepted invite calls onInvite once with the email and role and
        clears both fields; a refused one changes nothing. */
    method HandleInvite(members: seq<string>, pending: seq<string>) returns (d: InviteDecision)
      modifies this
      ensures d == Decide(old(inviteEmail), old(selectedRole), members, pending)
      ensures d == Invite ==> invited == old(invited) + [(old(inviteEmail), old(selectedRole))]
                              && inviteEmail == [] && selectedRole == []
      ensures d != Invite ==> invited == old(invited) && inviteEmail == old(inviteEmail)
                              && selectedRole == old(selectedRole)
    {
      d := Decide(inviteEmail, selectedRole, members, pending);
      if d == Invite {
        invited := invited + [(inviteEmail, selectedRole)];
        inviteEmail := [];
        selectedRole := [];
      }
    }
  }
}
