/**
 * The swipe-action provider and the icon view it draws on, as objects. The provider's
 * collaborators (the user session, the submission repository, the voting manager and the
 * listeners it notifies) are fields standing for what the provider can observe of them,
 * plus a log of the calls it makes. Each method is proved to do what the corresponding
 * function of module SubmissionSwipeActions says.
 */
module Provider {
  import opened Wrappers
  import opened SwipeTypes
  import opened SubmissionSwipeActions

  /** The icon shown under a swiped item; its animation is a tag, not a rendering. */
  class SwipeActionIconView {
    var image: Icon
    var rotation: int
    var animation: IconAnimation

    function State(): IconState
      reads this
    {
      IconState(image, rotation, animation)
    }

    constructor (image: Icon)
      ensures State() == IconState(image, 0, Idle)
    {
      this.image := image;
      rotation := 0;
      animation := Idle;
    }

    method SetImageResource(icon: Icon)
      modifies this
      ensures State() == old(State()).(image := icon)
    {
      image := icon;
    }

    method SetRotation(degrees: int)
      modifies this
      ensures State() == old(State()).(rotation := degrees)
    {
      rotation := degrees;
    }

    /** Stops the running animation where it is. */
    method CancelAnimation()
      modifies this
      ensures State() == old(State()).(animation := Idle)
    {
      animation := Idle;
    }

    /** Starts turning the icon by `degrees` from its current rotation. */
    method AnimateRotationBy(degrees: int)
      modifies this
      ensures State() == old(State()).(animation := RotatingBy(degrees))
    {
      animation := RotatingBy(degrees);
    }
  }

  class SubmissionSwipeActionsProvider {
    const swipeActionsWithUnsave: SwipeActions
    const swipeActionsWithSave: SwipeActions

    /** Whether the user session has a logged-in user. */
    var loggedIn: bool
    /** Full names of the submissions the repository reports as saved. */
    var saved: set<string>
    /** Votes the voting manager holds as pending, by submission full name. */
    var pendingVotes: map<string, VoteDirection>
    /** The calls made on the collaborators, oldest first. */
    var calls: seq<Call>

    /** The two action sets are the ones the constructor builds. */
    ghost predicate Valid() {
      swipeActionsWithUnsave == SwipeActionsWithUnsave && swipeActionsWithSave == SwipeActionsWithSave
    }

    function State(): Collaborators
      reads this
    {
      Collaborators(loggedIn, saved, pendingVotes, calls)
    }

    constructor (loggedIn: bool, saved: set<string>, pendingVotes: map<string, VoteDirection>)
      ensures Valid()
      ensures State() == Collaborators(loggedIn, saved, pendingVotes, [])
    {
      swipeActionsWithUnsave := SwipeActions(
        [UnSaveSwipeAction, MoreOptionsSwipeAction],
        [DownvoteSwipeAction, UpvoteSwipeAction]);
      swipeActionsWithSave := SwipeActions(
        [SaveSwipeAction, MoreOptionsSwipeAction],
        [DownvoteSwipeAction, UpvoteSwipeAction]);
      this.loggedIn := loggedIn;
      this.saved := saved;
      this.pendingVotes := pendingVotes;
      calls := [];
    }

    /** The action set for a submission, chosen by asking the repository whether it is saved. */
    function ActionsFor(submission: Submission): (r: SwipeActions)
      reads this
      requires Valid()
      ensures r == SubmissionSwipeActions.ActionsFor(State(), submission)
    {
      if submission.fullName in saved then swipeActionsWithUnsave else swipeActionsWithSave
    }

    /** Sets the icon for the action the swipe has reached; an unknown action throws and changes nothing. */
    method ShowSwipeActionIcon(imageView: SwipeActionIconView, oldAction: Option<SwipeAction>, newAction: SwipeAction)
      returns (r: Outcome<Error>)
      modifies imageView
      ensures r.Fail? <==> ShowIcon(old(imageView.State()), oldAction, newAction).Failure?
      ensures r.Fail? ==> r.error == UnknownSwipeAction(newAction.name) && imageView.State() == old(imageView.State())
      ensures r.Pass? ==> imageView.State() == ShowIcon(old(imageView.State()), oldAction, newAction).value
    {
      if newAction.name == OptionsName {
        ResetIconRotation(imageView);
        imageView.SetImageResource(MoreHoriz);
      } else if newAction.name == SaveName {
        ResetIconRotation(imageView);
        imageView.SetImageResource(Star);
      } else if newAction.name == UnSaveName {
        ResetIconRotation(imageView);
        imageView.SetImageResource(StarBorder);
      } else if newAction.name == UpvoteName {
        if oldAction.Some? && oldAction.value.name == DownvoteName {
          imageView.SetRotation(180);
          imageView.AnimateRotationBy(180);
        } else {
          ResetIconRotation(imageView);
          imageView.SetImageResource(ArrowUpward);
        }
      } else if newAction.name == DownvoteName {
        if oldAction.Some? && oldAction.value.name == UpvoteName {
          imageView.SetRotation(0);
          imageView.AnimateRotationBy(180);
        } else {
          ResetIconRotation(imageView);
          imageView.SetImageResource(ArrowDownward);
        }
      } else {
        return Fail(UnknownSwipeAction(newAction.name));
      }
      return Pass;
    }

    /**
     * Completes a swipe: asks a logged-out user to log in (unless the action is Options), or
     * requests the action from the collaborators and plays the matching ripple. An unknown
     * action throws before anything changes.
     */
    method PerformSwipeAction(swipeAction: SwipeAction, submission: Submission) returns (r: Outcome<Error>)
      modifies this
      ensures r.Fail? <==> Step(old(State()), swipeAction, submission).Failure?
      ensures r.Fail? ==> r.error == UnknownSwipeAction(swipeAction.name) && State() == old(State())
      ensures r.Pass? ==> State() == Step(old(State()), swipeAction, submission).value
    {
      if swipeAction.name != OptionsName && !loggedIn {
        calls := calls + [OnLoginRequired];
        return Pass;
      }

      var isUndoAction: bool;
      if swipeAction.name == OptionsName {
        calls := calls + [OptionSwipeEvent(submission)];
        isUndoAction := false;
      } else if swipeAction.name == SaveName {
        saved := saved + {submission.fullName};
        calls := calls + [MarkAsSaved(submission)];
        isUndoAction := false;
      } else if swipeAction.name == UnSaveName {
        saved := saved - {submission.fullName};
        calls := calls + [MarkAsUnsaved(submission)];
        isUndoAction := true;
      } else if swipeAction.name == UpvoteName {
        var currentVoteDirection := PendingOrDefaultVote(State(), submission);
        var newVoteDirection := if currentVoteDirection == Up then NoVote else Up;
        pendingVotes := pendingVotes[submission.fullName := newVoteDirection];
        calls := calls + [VoteWithAutoRetry(submission, newVoteDirection)];
        isUndoAction := newVoteDirection == NoVote;
      } else if swipeAction.name == DownvoteName {
        var currentVoteDirection := PendingOrDefaultVote(State(), submission);
        var newVoteDirection := if currentVoteDirection == Down then NoVote else Down;
        pendingVotes := pendingVotes[submission.fullName := newVoteDirection];
        calls := calls + [VoteWithAutoRetry(submission, newVoteDirection)];
        isUndoAction := newVoteDirection == NoVote;
      } else {
        return Fail(UnknownSwipeAction(swipeAction.name));
      }

      calls := calls + [PlayRippleAnimation(swipeAction, if isUndoAction then Undo else Register)];
      r := Pass;
    }

    /** Cancels the icon's animation and turns it upright. */
    method ResetIconRotation(imageView: SwipeActionIconView)
      modifies imageView
      ensures imageView.State() == SubmissionSwipeActions.ResetIconRotation(old(imageView.State()))
    {
      imageView.CancelAnimation();
      imageView.SetRotation(0);
    }
  }
}
