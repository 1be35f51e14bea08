# Submission swipe actions

A model of the swipe-gesture rules for submissions (posts) in the Dank Reddit client's feed,
as implemented by `SubmissionSwipeActionsProvider`:

- the two fixed action sets built by the provider's constructor;
- `actionsFor`: which set a submission is offered;
- `performSwipeAction`: what a completed swipe does;
- `showSwipeActionIcon`: what the swipe icon shows while the user drags.

A set starts with Save or UnSave, then Options. It ends with Downvote, then Upvote.

The model has four modules:

- `Wrappers` holds Option, Result and Outcome. A thrown `UnsupportedOperationException` becomes
  a `Failure`/`Fail` carrying `UnknownSwipeAction(name)`.
- `SwipeTypes` holds the types the provider uses but does not define: the vote direction, the
  swipe widgets, the ripple types, the drawables (as tags) and the submission.
- `SubmissionSwipeActions` is the specification as values:
  - the decision table `Decide`;
  - the effect of one completed swipe, `Step`, and of a series of swipes, `Run`;
  - the icon update `ShowIcon`, and `ShowTrace` for a series of them;
  - the lemmas about all of these.
- `Provider` holds the two classes. `SubmissionSwipeActionsProvider` and `SwipeActionIconView`
  have imperative methods that follow the source branch by branch. Each method is proved to
  produce the state that `Step` or `ShowIcon` prescribes.

The collaborators are represented by what the provider observes of them:

- whether a user is logged in;
- the set of full names the submission repository reports as saved;
- the votes the voting manager holds as pending. When none is pending, the submission's own
  vote is used, as `getPendingOrDefaultVote(info, info.voteDirection())` does.

Each call that changes a collaborator or notifies a listener is also appended to a log
(`Call`). The queries `isUserLoggedIn`, `isSaved` and `getPendingOrDefaultVote` are read from
the state and are not logged. The model assumes three things about the collaborators:

- `markAsSaved` makes the repository report the submission as saved.
- `markAsUnsaved` makes it report the submission as not saved.
- `voteWithAutoRetry` makes the requested direction the pending vote.

The login gate checks the action's name before the switch does. So a logged-out user who
swipes an unknown action is only asked to log in; no exception is thrown. The model keeps
this order. When a user is logged in, an unknown action throws before any collaborator is
changed or notified, so the model leaves the state unchanged on failure.

For the icon, the animation is kept only as a tag: `RotatingBy(degrees)`, counted from the
rotation that was set just before it. `ShownArrow` reads which way an arrow drawable points
once the animation ends.

The vote-switch branches keep whatever image is already there. Three lemmas show what follows:

- `GestureFromUpvoteShowsCurrentVote`: when the swipe reaches Upvote first, the icon points
  the way of the current vote, however often the user switches.
- `DownvoteThenUpvoteKeepsDownwardArrow`: when the swipe reaches Downvote first and then
  Upvote, the downward-arrow image is flipped to 180 degrees and turned a further half
  turn, so it comes to rest pointing down.
- `GestureFromDownvoteShowsOppositeVote`: when the swipe reaches Downvote first, every later
  switch between the votes leaves the icon pointing opposite to the vote it is on.

Which case happens depends on the order in which the swipeable layout reaches the end
actions. That layout is not part of this model.

## Model

| member | source | states |
|---|---|---|
| `SubmissionSwipeActions.ParseName` | app/src/main/java/me/saket/dank/ui/subreddit/SubmissionSwipeActionsProvider.java:35-39 | a name is recognised exactly when it is one of the five action names, and then as the action with that name |
| `SubmissionSwipeActions.ParseNameOf` | app/src/main/java/me/saket/dank/ui/subreddit/SubmissionSwipeActionsProvider.java:35-39 | each action's name is recognised as that action (the five names are distinct) |
| `SubmissionSwipeActions.ActionSetsDifferOnlyInFirstStartAction` | app/src/main/java/me/saket/dank/ui/subreddit/SubmissionSwipeActionsProvider.java:61-87 | the two action sets have the same end actions and the same start actions after the first; the first start actions differ (UnSave against Save) but share the save colour |
| `SubmissionSwipeActions.ActionsFor` | app/src/main/java/me/saket/dank/ui/subreddit/SubmissionSwipeActionsProvider.java:95-98 | the offered set starts with UnSave exactly when the submission is saved and with Save exactly when it is not; then Options; its end actions are Downvote, Upvote |
| `Provider.SubmissionSwipeActionsProvider.constructor` | app/src/main/java/me/saket/dank/ui/subreddit/SubmissionSwipeActionsProvider.java:50-88 | builds the with-UnSave and with-Save action sets and starts with an empty call log |
| `Provider.SubmissionSwipeActionsProvider.ActionsFor` | app/src/main/java/me/saket/dank/ui/subreddit/SubmissionSwipeActionsProvider.java:95-98 | the set chosen from the provider's fields is the one the specification `ActionsFor` prescribes for the repository's answer |
| `SubmissionSwipeActions.OfferedActionsNeverThrow` | app/src/main/java/me/saket/dank/ui/subreddit/SubmissionSwipeActionsProvider.java:67-98 | every action of an offered set has a known name, so performing it never throws |
| `SubmissionSwipeActions.ToggledVote` | app/src/main/java/me/saket/dank/ui/subreddit/SubmissionSwipeActionsProvider.java:171-184 | a vote swipe withdraws the vote (NO_VOTE) exactly when the current vote is its own direction, and otherwise casts its own direction, never the opposite one |
| `SubmissionSwipeActions.ToggledVoteTwice` | app/src/main/java/me/saket/dank/ui/subreddit/SubmissionSwipeActionsProvider.java:171-184 | toggling twice restores the vote exactly when it started as NO_VOTE or as the swipe's own direction; from the opposite vote the first toggle switches to the swipe's direction |
| `SubmissionSwipeActions.Decide` | app/src/main/java/me/saket/dank/ui/subreddit/SubmissionSwipeActionsProvider.java:143-198 | login is required exactly when logged out and the action is not Options; the swipe throws exactly when logged in and the name is unknown; Options shows options with REGISTER, Save saves with REGISTER, UnSave unsaves with UNDO, a vote casts the toggled direction; the ripple is UNDO exactly for UnSave and for a vote that resolves to NO_VOTE |
| `SubmissionSwipeActions.Step` | app/src/main/java/me/saket/dank/ui/subreddit/SubmissionSwipeActionsProvider.java:143-198 | a completed swipe throws UnknownSwipeAction exactly when logged in with an unknown name; otherwise it keeps the login state, only appends to the call log and changes nothing about other submissions |
| `SubmissionSwipeActions.LoggedOutSwipeOnlyAsksToLogIn` | app/src/main/java/me/saket/dank/ui/subreddit/SubmissionSwipeActionsProvider.java:144-147 | logged out, any action but Options (known or not) makes only the login-required call: no save, no vote, no options event, no ripple |
| `SubmissionSwipeActions.OptionsSwipeNeedsNoLogin` | app/src/main/java/me/saket/dank/ui/subreddit/SubmissionSwipeActionsProvider.java:144-155 | Options, logged in or not, emits exactly one option-swipe event and then a REGISTER ripple, changing nothing else |
| `SubmissionSwipeActions.SaveSwipesChangeOnlySavedFlag` | app/src/main/java/me/saket/dank/ui/subreddit/SubmissionSwipeActionsProvider.java:157-167 | Save marks the submission saved with a REGISTER ripple and UnSave unsaved with an UNDO ripple; the pending votes are untouched |
| `SubmissionSwipeActions.VoteSwipeTogglesVote` | app/src/main/java/me/saket/dank/ui/subreddit/SubmissionSwipeActionsProvider.java:169-191 | a vote swipe sets the pending-or-default vote to the toggled direction, requests that vote, leaves the saved set untouched and plays UNDO exactly when the vote is withdrawn |
| `SubmissionSwipeActions.OtherSwipeKeepsSaved` | app/src/main/java/me/saket/dank/ui/subreddit/SubmissionSwipeActionsProvider.java:151-191 | a logged-in Options or vote swipe leaves the saved flag as it was |
| `SubmissionSwipeActions.LoggedOutRunOnlyAsksToLogIn` | app/src/main/java/me/saket/dank/ui/subreddit/SubmissionSwipeActionsProvider.java:144-147 | while logged out, any series of swipes other than Options makes exactly one login-required call per swipe and nothing else |
| `SubmissionSwipeActions.KnownActionsNeverThrow` | app/src/main/java/me/saket/dank/ui/subreddit/SubmissionSwipeActionsProvider.java:151-195 | a series of swipes of known actions never throws |
| `SubmissionSwipeActions.RunLeavesOtherSubmissions` | app/src/main/java/me/saket/dank/ui/subreddit/SubmissionSwipeActionsProvider.java:157-191 | swipes on one submission change neither the saved flag nor the pending-or-default vote of any other submission |
| `SubmissionSwipeActions.LastSaveSwipeDecidesSaved` | app/src/main/java/me/saket/dank/ui/subreddit/SubmissionSwipeActionsProvider.java:157-167 | after logged-in swipes, the submission is saved exactly when the last Save or UnSave among them was Save, and is as before when there was none |
| `SubmissionSwipeActions.RepeatedVoteSwipesAlternate` | app/src/main/java/me/saket/dank/ui/subreddit/SubmissionSwipeActionsProvider.java:169-191 | n swipes of the same vote from NO_VOTE or from that vote return to the starting vote when n is even and toggle it once when n is odd; the saved set never changes |
| `SubmissionSwipeActions.ResetIconComesToRestUpright` | app/src/main/java/me/saket/dank/ui/subreddit/SubmissionSwipeActionsProvider.java:200-203 | whatever animation was running, a reset icon keeps its image and comes to rest at rotation 0, so an arrow image points its own way |
| `Provider.SubmissionSwipeActionsProvider.ResetIconRotation` | app/src/main/java/me/saket/dank/ui/subreddit/SubmissionSwipeActionsProvider.java:200-203 | cancelling the animation and setting rotation 0 leaves the view in the reset state |
| `SubmissionSwipeActions.ShowIcon` | app/src/main/java/me/saket/dank/ui/subreddit/SubmissionSwipeActionsProvider.java:101-141 | an unknown new action throws; switching from one vote to the other keeps the image, starts a 180-degree turn, and sets rotation 180 for Upvote and 0 for Downvote; anything else sets rotation 0, stops the animation and shows the action's own image |
| `Provider.SubmissionSwipeActionsProvider.ShowSwipeActionIcon` | app/src/main/java/me/saket/dank/ui/subreddit/SubmissionSwipeActionsProvider.java:100-141 | the view ends in the state `ShowIcon` prescribes; an unknown action throws and leaves the view untouched |
| `SubmissionSwipeActions.FreshVoteIconPointsItsWay` | app/src/main/java/me/saket/dank/ui/subreddit/SubmissionSwipeActionsProvider.java:118-136 | a vote reached from anything but the other vote shows its own arrow, upright |
| `SubmissionSwipeActions.AlternatingVotesKeepArrowRight` | app/src/main/java/me/saket/dank/ui/subreddit/SubmissionSwipeActionsProvider.java:118-136 | from an upward-arrow image that points the way of the last vote, switching back and forth between the votes keeps that image and points the way of the latest vote |
| `SubmissionSwipeActions.GestureFromUpvoteShowsCurrentVote` | app/src/main/java/me/saket/dank/ui/subreddit/SubmissionSwipeActionsProvider.java:118-136 | a swipe that reaches Upvote first and then alternates between the votes ends pointing the way of the vote it is on |
| `SubmissionSwipeActions.DownvoteThenUpvoteKeepsDownwardArrow` | app/src/main/java/me/saket/dank/ui/subreddit/SubmissionSwipeActionsProvider.java:118-136 | a swipe that reaches Downvote first and then Upvote keeps the downward image at rotation 180 turning by 180, so the icon comes to rest pointing down |
| `SubmissionSwipeActions.AlternatingVotesFromDownwardArrowPointWrongWay` | app/src/main/java/me/saket/dank/ui/subreddit/SubmissionSwipeActionsProvider.java:118-136 | from a downward-arrow image, switching back and forth between the votes keeps that image and after each switch points opposite to the latest vote |
| `SubmissionSwipeActions.GestureFromDownvoteShowsOppositeVote` | app/src/main/java/me/saket/dank/ui/subreddit/SubmissionSwipeActionsProvider.java:118-136 | a swipe that reaches Downvote first points down, and after every later switch between the votes points opposite to the vote it is on |
| `Provider.SubmissionSwipeActionsProvider.PerformSwipeAction` | app/src/main/java/me/saket/dank/ui/subreddit/SubmissionSwipeActionsProvider.java:143-198 | the provider's fields end as `Step` prescribes; an unknown action throws exactly when `Step` fails, and then changes nothing |

## Left out

- The option-swipe observable (`optionSwipeActions()`) and the Rx relay behind it are not modelled. An emitted event is logged as an `OptionSwipeEvent` call. The swipeable layout it carries is not recorded.
- The voting manager's asynchronous retry is not modelled. This covers `voteWithAutoRetry` on `Schedulers.io()` and the `subscribe()` call. The model records only the requested direction, as the new pending vote. It also assumes that each vote request is already pending when the next swipe reads `getPendingOrDefaultVote`. The source issues the request on a background scheduler, so a swipe that arrives before the request is registered is not modelled. `VoteSwipeTogglesVote` and `RepeatedVoteSwipesAlternate` rest on this assumption.
- The submission repository's persistence and the user session's state are reduced to the saved set and the login flag. Their classes are not part of this model.
- Android rendering is reduced to tags. Colour and drawable resources become enumerations. The ripple is a logged call. The icon animation is a tag without its interpolator or its 200 ms duration.
- Timber logging and the dependency-injection annotations have no effect on behaviour and are left out.
- The model covers one provider per model object, and each series of swipes concerns one submission. Concurrent use from several threads is not modelled.
