/** The password gate shown in front of a protected ticket type: the typed password, the
    error line, and the `isUnlocked` flag that only ever goes from false to true. */
module PasswordProtectedTicket {
  import opened Common

  const IncorrectPassword := "Incorrect password. Please try again."

  /** `enteredPassword === ticket.password`: an undefined stored password matches nothing. */
  predicate Matches(entered: string, password: Option<string>) {
    password == Some(entered)
  }

  /** The page hands the gate `password_hash || ""`, so a type whose stored hash is null or
      empty can never be unlocked: the submit button is disabled for an empty entry, and no
      non-empty entry equals "". */
  lemma EmptyStoredPasswordNeverUnlocks(entered: string, passwordHash: Option<string>)
    requires entered != []
    requires passwordHash.None? || passwordHash == Some([])
    ensures !Matches(entered, Some(if passwordHash.Some? then passwordHash.value else []))
  {
  }

  /** The gate of one ticket type. `unlockCalls` counts the calls of the `onUnlock` callback. */
  class Gate {
    const isProtected: bool
    const password: Option<string>
    var entered: string
    var error: string
    var isUnlocked: bool
    var unlockCalls: nat

    /** A gate starts unlocked exactly when its ticket is not protected. */
    constructor (isProtected: bool, password: Option<string>)
      ensures this.isProtected == isProtected && this.password == password
      ensures entered == [] && error == [] && unlockCalls == 0
      ensures isUnlocked <==> !isProtected
    {
      this.isProtected := isProtected;
      this.password := password;
      entered := [];
      error := [];
      isUnlocked := !isProtected;
      unlockCalls := 0;
    }

    /** The children (the purchase controls) are shown instead of the form. */
    predicate RendersChildren()
      reads this
    {
      !isProtected || isUnlocked
    }

    /** The submit button is disabled while nothing is typed. */
    predicate SubmitEnabled()
      reads this
    {
      entered != []
    }

    /** The input's onChange: the text is stored and any error cleared. */
    method ChangeInput(text: string)
      modifies this
      ensures entered == text && error == []
      ensures isUnlocked == old(isUnlocked) && unlockCalls == old(unlockCalls)
    {
      entered := text;
      error := [];
    }

    /** handlePasswordSubmit: a match unlocks, clears the error and calls onUnlock once; a
        mismatch sets the error and changes nothing else. Unlocking is never undone. */
    method Submit()
      modifies this
      ensures entered == old(entered)
      ensures old(isUnlocked) ==> isUnlocked
      ensures Matches(entered, password) ==> isUnlocked && error == [] && unlockCalls == old(unlockCalls) + 1
      ensures !Matches(entered, password) ==>
                error == IncorrectPassword && isUnlocked == old(isUnlocked) && unlockCalls == old(unlockCalls)
    {
      if Matches(entered, password) {
        isUnlocked := true;
        error := [];
        unlockCalls := unlockCalls + 1;
      } else {
        error := IncorrectPassword;
      }
    }
  }
}
