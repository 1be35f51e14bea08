/**
 * The decision rules of the submission swipe-action provider, as values: the fixed action
 * sets, which set a submission is offered, what a completed swipe requests from the
 * collaborators and which ripple it plays, and what the swipe icon shows. The classes in
 * module Provider are proved against these functions.
 */
module SubmissionSwipeActions {
  import opened Wrappers
  import opened SwipeTypes

  // ---------------------------------------------------------------------------
  // Action names
  // ---------------------------------------------------------------------------

  const SaveName: string := "Save"
  const UnSaveName: string := "UnSave"
  const OptionsName: string := "Options"
  const UpvoteName: string := "Upvote"
  const DownvoteName: string := "Downvote"

  /** The five swipe actions the provider knows by name. */
  datatype SwipeKind = Save | UnSave | Options | Upvote | Downvote

  /** The exception thrown for a swipe action whose name the provider does not know. */
  datatype Error = UnknownSwipeAction(name: string)

  function NameOf(kind: SwipeKind): string {
    match kind
    case Save => SaveName
    case UnSave => UnSaveName
    case Options => OptionsName
    case Upvote => UpvoteName
    case Downvote => DownvoteName
  }

  /** The action a name stands for; None for any other name (the source's `default:` branch). */
  function ParseName(name: string): (r: Option<SwipeKind>)
    ensures r.Some? ==> NameOf(r.value) == name
    ensures r.None? ==> forall kind :: NameOf(kind) != name
  {
    if name == SaveName then Some(Save)
    else if name == UnSaveName then Some(UnSave)
    else if name == OptionsName then Some(Options)
    else if name == UpvoteName then Some(Upvote)
    else if name == DownvoteName then Some(Downvote)
    else None
  }

  /** Every known name is recognised as the action it names, so the five names are distinct. */
  lemma ParseNameOf(kind: SwipeKind)
    ensures ParseName(NameOf(kind)) == Some(kind)
  {
  }

  predicate IsVoteName(name: string) {
    name == UpvoteName || name == DownvoteName
  }

  predicate IsSaveName(name: string) {
    name == SaveName || name == UnSaveName
  }

  /** The direction a vote action casts when it does not withdraw a vote; NoVote for other names. */
  function VoteOfName(name: string): (d: VoteDirection)
    ensures d != NoVote <==> IsVoteName(name)
    ensures d == Up <==> name == UpvoteName
  {
    if name == UpvoteName then Up else if name == DownvoteName then Down else NoVote
  }

  // ---------------------------------------------------------------------------
  // The fixed action sets
  // ---------------------------------------------------------------------------

  const SaveSwipeAction: SwipeAction := SwipeAction(SaveName, SaveColor, 1.0)
  const UnSaveSwipeAction: SwipeAction := SwipeAction(UnSaveName, SaveColor, 1.0)
  const MoreOptionsSwipeAction: SwipeAction := SwipeAction(OptionsName, MoreOptionsColor, 1.0)
  const DownvoteSwipeAction: SwipeAction := SwipeAction(DownvoteName, DownvoteColor, 1.0)
  const UpvoteSwipeAction: SwipeAction := SwipeAction(UpvoteName, UpvoteColor, 1.0)

  const SwipeActionsWithUnsave: SwipeActions :=
    SwipeActions([UnSaveSwipeAction, MoreOptionsSwipeAction], [DownvoteSwipeAction, UpvoteSwipeAction])

  const SwipeActionsWithSave: SwipeActions :=
    SwipeActions([SaveSwipeAction, MoreOptionsSwipeAction], [DownvoteSwipeAction, UpvoteSwipeAction])

  /** The two sets agree everywhere except on the first start action. */
  lemma ActionSetsDifferOnlyInFirstStartAction()
    ensures SwipeActionsWithUnsave.endActions == SwipeActionsWithSave.endActions
    ensures SwipeActionsWithUnsave.startActions[1..] == SwipeActionsWithSave.startActions[1..]
    ensures SwipeActionsWithUnsave.startActions[0] != SwipeActionsWithSave.startActions[0]
    ensures SwipeActionsWithUnsave.startActions[0].color == SwipeActionsWithSave.startActions[0].color
  {
  }

  // ---------------------------------------------------------------------------
  // The collaborators' state
  // ---------------------------------------------------------------------------

  /** A call the provider makes on one of its collaborators. */
  datatype Call =
    | OnLoginRequired
    | OptionSwipeEvent(submission: Submission)
    | MarkAsSaved(submission: Submission)
    | MarkAsUnsaved(submission: Submission)
    | VoteWithAutoRetry(submission: Submission, direction: VoteDirection)
    | PlayRippleAnimation(action: SwipeAction, ripple: RippleType)

  /**
   * What the provider can observe and change through its collaborators: whether a user is
   * logged in, the full names of the submissions the repository reports as saved, the votes
   * the voting manager holds as pending, and the calls made so far, oldest first.
   */
  datatype Collaborators = Collaborators(
    loggedIn: bool,
    saved: set<string>,
    pendingVotes: map<string, VoteDirection>,
    calls: seq<Call>)

  function IsSaved(c: Collaborators, s: Submission): bool {
    s.fullName in c.saved
  }

  /** The pending vote on a submission, or the vote Reddit reports when none is pending. */
  function PendingOrDefaultVote(c: Collaborators, s: Submission): VoteDirection {
    if s.fullName in c.pendingVotes then c.pendingVotes[s.fullName] else s.voteDirection
  }

  /** Nothing observable about submissions other than `s` differs between `c` and `c'`. */
  ghost predicate OthersUnchanged(c: Collaborators, c': Collaborators, s: Submission) {
    forall t: Submission :: t.fullName != s.fullName ==>
      IsSaved(c', t) == IsSaved(c, t) && PendingOrDefaultVote(c', t) == PendingOrDefaultVote(c, t)
  }

  /** The set offered for a submission: with UnSave when it is saved, with Save otherwise. */
  function ActionsFor(c: Collaborators, s: Submission): (r: SwipeActions)
    ensures |r.startActions| == 2 && r.startActions[1] == MoreOptionsSwipeAction
    ensures r.startActions[0].name == UnSaveName <==> IsSaved(c, s)
    ensures r.startActions[0].name == SaveName <==> !IsSaved(c, s)
    ensures r.endActions == [DownvoteSwipeAction, UpvoteSwipeAction]
  {
    if IsSaved(c, s) then SwipeActionsWithUnsave else SwipeActionsWithSave
  }

  // ---------------------------------------------------------------------------
  // Completing a swipe
  // ---------------------------------------------------------------------------

  /** The vote a vote swipe casts: swiping toward the vote already held withdraws it. */
  function ToggledVote(current: VoteDirection, direction: VoteDirection): (r: VoteDirection)
    requires direction != NoVote
    ensures r == NoVote <==> current == direction
    ensures r != NoVote ==> r == direction
  {
    if current == direction then NoVote else direction
  }

  /** Swiping the same vote twice restores the vote, unless it started as the opposite vote. */
  lemma ToggledVoteTwice(current: VoteDirection, direction: VoteDirection)
    requires direction != NoVote
    ensures current != NoVote && current != direction ==> ToggledVote(current, direction) == direction
    ensures current == NoVote || current == direction <==>
      ToggledVote(ToggledVote(current, direction), direction) == current
  {
  }

  /** What a completed swipe asks of the collaborators. */
  datatype Request = ShowOptions | SetSaved | SetUnsaved | SetVote(direction: VoteDirection)

  /** A completed swipe either only asks the user to log in, or performs a request with a ripple. */
  datatype Decision = RequireLogin | Perform(request: Request, ripple: RippleType)

  /**
   * The decision table of a completed swipe. The login gate looks at the name before the
   * switch does, so a logged-out user swiping any action but Options, even an unknown one,
   * is only asked to log in.
   */
  function Decide(name: string, loggedIn: bool, currentVote: VoteDirection): (r: Result<Decision, Error>)
    ensures r == Success(RequireLogin) <==> !loggedIn && name != OptionsName
    ensures r.Failure? <==> loggedIn && ParseName(name).None?
    ensures r.Failure? ==> r.error == UnknownSwipeAction(name)
    ensures name == OptionsName ==> r == Success(Perform(ShowOptions, Register))
    ensures loggedIn && name == SaveName ==> r == Success(Perform(SetSaved, Register))
    ensures loggedIn && name == UnSaveName ==> r == Success(Perform(SetUnsaved, Undo))
    ensures loggedIn && IsVoteName(name) ==>
      r.Success? && r.value.Perform? &&
      r.value.request == SetVote(ToggledVote(currentVote, VoteOfName(name)))
    ensures r.Success? && r.value.Perform? ==>
      (r.value.ripple == Undo <==> r.value.request == SetUnsaved || r.value.request == SetVote(NoVote))
  {
    if name != OptionsName && !loggedIn then
      Success(RequireLogin)
    else
      match ParseName(name)
      case None => Failure(UnknownSwipeAction(name))
      case Some(Options) => Success(Perform(ShowOptions, Register))
      case Some(Save) => Success(Perform(SetSaved, Register))
      case Some(UnSave) => Success(Perform(SetUnsaved, Undo))
      case Some(Upvote) =>
        var direction := ToggledVote(currentVote, Up);
        Success(Perform(SetVote(direction), if direction == NoVote then Undo else Register))
      case Some(Downvote) =>
        var direction := ToggledVote(currentVote, Down);
        Success(Perform(SetVote(direction), if direction == NoVote then Undo else Register))
  }

  /**
   * The collaborators after a swipe of `action` on `s` completes, or the exception it throws.
   * A request is recorded as the collaborator call that carries it, and the saved set and
   * pending votes change as that call makes them change.
   */
  function Step(c: Collaborators, action: SwipeAction, s: Submission): (r: Result<Collaborators, Error>)
    ensures r.Failure? <==> c.loggedIn && ParseName(action.name).None?
    ensures r.Failure? ==> r.error == UnknownSwipeAction(action.name)
    ensures r.Success? ==> r.value.loggedIn == c.loggedIn
    ensures r.Success? ==> |c.calls| < |r.value.calls| && r.value.calls[..|c.calls|] == c.calls
    ensures r.Success? ==> OthersUnchanged(c, r.value, s)
  {
    match Decide(action.name, c.loggedIn, PendingOrDefaultVote(c, s))
    case Failure(e) => Failure(e)
    case Success(RequireLogin) => Success(c.(calls := c.calls + [OnLoginRequired]))
    case Success(Perform(request, ripple)) =>
      var c' := match request
        case ShowOptions => c.(calls := c.calls + [OptionSwipeEvent(s)])
        case SetSaved => c.(saved := c.saved + {s.fullName}, calls := c.calls + [MarkAsSaved(s)])
        case SetUnsaved => c.(saved := c.saved - {s.fullName}, calls := c.calls + [MarkAsUnsaved(s)])
        case SetVote(d) =>
          c.(pendingVotes := c.pendingVotes[s.fullName := d], calls := c.calls + [VoteWithAutoRetry(s, d)]);
      Success(c'.(calls := c'.calls + [PlayRippleAnimation(action, ripple)]))
  }

  /** A logged-out user swiping anything but Options is asked to log in and nothing else happens. */
  lemma LoggedOutSwipeOnlyAsksToLogIn(c: Collaborators, action: SwipeAction, s: Submission)
    requires !c.loggedIn && action.name != OptionsName
    ensures Step(c, action, s) == Success(c.(calls := c.calls + [OnLoginRequired]))
  {
  }

  /** Options needs no login: it emits one option-swipe event and plays a REGISTER ripple. */
  lemma OptionsSwipeNeedsNoLogin(c: Collaborators, action: SwipeAction, s: Submission)
    requires action.name == OptionsName
    ensures Step(c, action, s) ==
      Success(c.(calls := c.calls + [OptionSwipeEvent(s), PlayRippleAnimation(action, Register)]))
  {
    assert c.calls + [OptionSwipeEvent(s)] + [PlayRippleAnimation(action, Register)] ==
      c.calls + [OptionSwipeEvent(s), PlayRippleAnimation(action, Register)];
  }

  /** Save and UnSave change only the saved flag; UnSave is the one that plays UNDO. */
  lemma SaveSwipesChangeOnlySavedFlag(c: Collaborators, action: SwipeAction, s: Submission)
    requires c.loggedIn && IsSaveName(action.name)
    ensures Step(c, action, s).Success?
    ensures var c' := Step(c, action, s).value;
      IsSaved(c', s) == (action.name == SaveName) &&
      c'.pendingVotes == c.pendingVotes &&
      c'.calls == c.calls + [
        if action.name == SaveName then MarkAsSaved(s) else MarkAsUnsaved(s),
        PlayRippleAnimation(action, if action.name == SaveName then Register else Undo)]
  {
  }

  /** A vote swipe toggles the pending-or-default vote, leaves the saved flag, and plays UNDO exactly when it withdraws. */
  lemma VoteSwipeTogglesVote(c: Collaborators, action: SwipeAction, s: Submission)
    requires c.loggedIn && IsVoteName(action.name)
    ensures Step(c, action, s).Success?
    ensures var c' := Step(c, action, s).value;
      var d := ToggledVote(PendingOrDefaultVote(c, s), VoteOfName(action.name));
      PendingOrDefaultVote(c', s) == d &&
      c'.saved == c.saved &&
      c'.calls == c.calls + [VoteWithAutoRetry(s, d), PlayRippleAnimation(action, if d == NoVote then Undo else Register)]
  {
  }

  /** Every action of either offered set is handled: no offered swipe throws. */
  lemma OfferedActionsNeverThrow(c: Collaborators, s: Submission, action: SwipeAction)
    requires action in ActionsFor(c, s).startActions || action in ActionsFor(c, s).endActions
    ensures ParseName(action.name).Some?
    ensures Step(c, action, s).Success?
  {
  }

  // ---------------------------------------------------------------------------
  // Sequences of swipes on one submission
  // ---------------------------------------------------------------------------

  /** The collaborators after a series of completed swipes on `s`, or the first exception thrown. */
  function Run(c: Collaborators, actions: seq<SwipeAction>, s: Submission): Result<Collaborators, Error>
    decreases |actions|
  {
    if actions == [] then Success(c)
    else match Step(c, actions[0], s)
      case Failure(e) => Failure(e)
      case Success(c') => Run(c', actions[1..], s)
  }

  function LoginPrompts(n: nat): (r: seq<Call>)
    ensures |r| == n && forall i :: 0 <= i < n ==> r[i] == OnLoginRequired
  {
    seq(n, _ => OnLoginRequired)
  }

  /** While logged out, swipes other than Options only ever ask to log in, one request per swipe. */
  lemma {:induction false} LoggedOutRunOnlyAsksToLogIn(c: Collaborators, actions: seq<SwipeAction>, s: Submission)
    requires !c.loggedIn
    requires forall i :: 0 <= i < |actions| ==> actions[i].name != OptionsName
    ensures Run(c, actions, s) == Success(c.(calls := c.calls + LoginPrompts(|actions|)))
    decreases |actions|
  {
    if actions != [] {
      var c1 := c.(calls := c.calls + [OnLoginRequired]);
      LoggedOutRunOnlyAsksToLogIn(c1, actions[1..], s);
      assert c1.calls + LoginPrompts(|actions| - 1) == c.calls + LoginPrompts(|actions|);
    } else {
      assert c.calls + LoginPrompts(0) == c.calls;
    }
  }

  /** A series of known actions never throws, whoever is logged in. */
  lemma {:induction false} KnownActionsNeverThrow(c: Collaborators, actions: seq<SwipeAction>, s: Submission)
    requires forall i :: 0 <= i < |actions| ==> ParseName(actions[i].name).Some?
    ensures Run(c, actions, s).Success?
    decreases |actions|
  {
    if actions != [] {
      KnownActionsNeverThrow(Step(c, actions[0], s).value, actions[1..], s);
    }
  }

  /** A series of swipes on `s` changes nothing observable about any other submission. */
  lemma {:induction false} RunLeavesOtherSubmissions(c: Collaborators, actions: seq<SwipeAction>, s: Submission)
    requires Run(c, actions, s).Success?
    ensures OthersUnchanged(c, Run(c, actions, s).value, s)
    decreases |actions|
  {
    if actions != [] {
      var c1 := Step(c, actions[0], s).value;
      RunLeavesOtherSubmissions(c1, actions[1..], s);
    }
  }

  /** No Save or UnSave among the actions from index `k` on. */
  ghost predicate NoSaveSwipeFrom(actions: seq<SwipeAction>, k: nat) {
    forall j :: k <= j < |actions| ==> !IsSaveName(actions[j].name)
  }

  lemma NoSaveSwipeInTail(actions: seq<SwipeAction>, k: nat)
    requires 0 < |actions| && NoSaveSwipeFrom(actions, k + 1)
    ensures NoSaveSwipeFrom(actions[1..], k)
  {
  }

  /** A logged-in swipe of a known action other than Save or UnSave leaves the saved flag alone. */
  lemma OtherSwipeKeepsSaved(c: Collaborators, action: SwipeAction, s: Submission)
    requires c.loggedIn && ParseName(action.name).Some? && !IsSaveName(action.name)
    ensures Step(c, action, s).Success? && IsSaved(Step(c, action, s).value, s) == IsSaved(c, s)
  {
  }

  /**
   * After logged-in swipes of known actions, the submission is saved exactly when the last
   * Save or UnSave among them was Save; with neither among them, the saved flag is as before.
   */
  lemma {:induction false} LastSaveSwipeDecidesSaved(c: Collaborators, actions: seq<SwipeAction>, s: Submission)
    requires c.loggedIn
    requires forall i :: 0 <= i < |actions| ==> ParseName(actions[i].name).Some?
    ensures Run(c, actions, s).Success?
    ensures NoSaveSwipeFrom(actions, 0) ==> IsSaved(Run(c, actions, s).value, s) == IsSaved(c, s)
    ensures forall k :: 0 <= k < |actions| && IsSaveName(actions[k].name) && NoSaveSwipeFrom(actions, k + 1) ==>
      IsSaved(Run(c, actions, s).value, s) == (actions[k].name == SaveName)
    decreases |actions|
  {
    KnownActionsNeverThrow(c, actions, s);
    if actions != [] {
      var c1 := Step(c, actions[0], s).value;
      var tail := actions[1..];
      LastSaveSwipeDecidesSaved(c1, tail, s);
      var r := Run(c1, tail, s).value;
      if IsSaveName(actions[0].name) {
        SaveSwipesChangeOnlySavedFlag(c, actions[0], s);
      } else {
        OtherSwipeKeepsSaved(c, actions[0], s);
      }
      if NoSaveSwipeFrom(actions, 0) {
        NoSaveSwipeInTail(actions, 0);
      }
      forall k | 0 <= k < |actions| && IsSaveName(actions[k].name) && NoSaveSwipeFrom(actions, k + 1)
        ensures IsSaved(r, s) == (actions[k].name == SaveName)
      {
        NoSaveSwipeInTail(actions, k);
      }
    }
  }

  function Repeat(action: SwipeAction, n: nat): (r: seq<SwipeAction>)
    ensures |r| == n && forall i :: 0 <= i < n ==> r[i] == action
  {
    seq(n, _ => action)
  }

  /**
   * Swiping the same vote n times, starting from no vote or from that vote, alternates:
   * after an even number of swipes the vote is back where it started, after an odd number
   * it is toggled once. The saved flag never changes.
   */
  lemma {:induction false} RepeatedVoteSwipesAlternate(c: Collaborators, action: SwipeAction, s: Submission, n: nat)
    requires c.loggedIn && IsVoteName(action.name)
    requires PendingOrDefaultVote(c, s) == NoVote || PendingOrDefaultVote(c, s) == VoteOfName(action.name)
    ensures Run(c, Repeat(action, n), s).Success?
    ensures var c' := Run(c, Repeat(action, n), s).value;
      c'.saved == c.saved &&
      PendingOrDefaultVote(c', s) ==
        if n % 2 == 0 then PendingOrDefaultVote(c, s)
        else ToggledVote(PendingOrDefaultVote(c, s), VoteOfName(action.name))
    decreases n
  {
    if n > 0 {
      var c1 := Step(c, action, s).value;
      VoteSwipeTogglesVote(c, action, s);
      RepeatedVoteSwipesAlternate(c1, action, s, n - 1);
      assert Repeat(action, n)[1..] == Repeat(action, n - 1);
    }
  }

  // ---------------------------------------------------------------------------
  // The swipe icon
  // ---------------------------------------------------------------------------

  /** Cancels the running animation and turns the icon back upright. */
  function ResetIconRotation(v: IconState): IconState {
    v.(rotation := 0, animation := Idle)
  }

  /** The swipe moved straight from one vote action to the other. */
  predicate IsVoteSwitch(oldAction: Option<SwipeAction>, newAction: SwipeAction) {
    oldAction.Some? && IsVoteName(oldAction.value.name) && IsVoteName(newAction.name) &&
    oldAction.value.name != newAction.name
  }

  /** The drawable an action shows when the icon is set afresh. */
  function IconOf(kind: SwipeKind): Icon {
    match kind
    case Options => MoreHoriz
    case Save => Star
    case UnSave => StarBorder
    case Upvote => ArrowUpward
    case Downvote => ArrowDownward
  }

  /**
   * The icon after the swipe reaches `newAction` coming from `oldAction`. Switching between
   * the two votes keeps the image and starts a half turn; anything else resets the
   * rotation and sets the action's own image.
   */
  function ShowIcon(v: IconState, oldAction: Option<SwipeAction>, newAction: SwipeAction): (r: Result<IconState, Error>)
    ensures r.Failure? <==> ParseName(newAction.name).None?
    ensures r.Failure? ==> r.error == UnknownSwipeAction(newAction.name)
    ensures r.Success? && IsVoteSwitch(oldAction, newAction) ==>
      r.value.image == v.image && r.value.animation == RotatingBy(180) &&
      r.value.rotation == (if newAction.name == UpvoteName then 180 else 0)
    ensures r.Success? && !IsVoteSwitch(oldAction, newAction) ==>
      r.value == IconState(IconOf(ParseName(newAction.name).value), 0, Idle)
  {
    match ParseName(newAction.name)
    case None => Failure(UnknownSwipeAction(newAction.name))
    case Some(Options) => Success(ResetIconRotation(v).(image := MoreHoriz))
    case Some(Save) => Success(ResetIconRotation(v).(image := Star))
    case Some(UnSave) => Success(ResetIconRotation(v).(image := StarBorder))
    case Some(Upvote) =>
      if oldAction.Some? && oldAction.value.name == DownvoteName then
        Success(v.(rotation := 180, animation := RotatingBy(180)))
      else
        Success(ResetIconRotation(v).(image := ArrowUpward))
    case Some(Downvote) =>
      if oldAction.Some? && oldAction.value.name == UpvoteName then
        Success(v.(rotation := 0, animation := RotatingBy(180)))
      else
        Success(ResetIconRotation(v).(image := ArrowDownward))
  }

  /** The rotation the icon comes to rest at once its animation ends. */
  function SettledRotation(v: IconState): int {
    match v.animation
    case Idle => v.rotation
    case RotatingBy(degrees) => v.rotation + degrees
  }

  /** Which way the arrow points once the icon is at rest, if it shows an upright or upside-down arrow. */
  function ShownArrow(v: IconState): (r: Option<VoteDirection>)
    ensures r.Some? ==> r.value != NoVote
    ensures r.Some? ==> v.image == ArrowUpward || v.image == ArrowDownward
  {
    var turn := SettledRotation(v) % 360;
    if turn != 0 && turn != 180 then None
    else if v.image == ArrowUpward then Some(if turn == 0 then Up else Down)
    else if v.image == ArrowDownward then Some(if turn == 0 then Down else Up)
    else None
  }

  /**
   * Whatever animation was running, a reset icon comes to rest upright: an arrow image
   * points its own way and the image itself is kept.
   */
  lemma ResetIconComesToRestUpright(v: IconState)
    ensures ResetIconRotation(v).image == v.image
    ensures SettledRotation(ResetIconRotation(v)) == 0
    ensures v.image == ArrowUpward ==> ShownArrow(ResetIconRotation(v)) == Some(Up)
    ensures v.image == ArrowDownward ==> ShownArrow(ResetIconRotation(v)) == Some(Down)
  {
  }

  /** A vote action reached from anything but the other vote shows its own arrow. */
  lemma FreshVoteIconPointsItsWay(v: IconState, oldAction: Option<SwipeAction>, newAction: SwipeAction)
    requires IsVoteName(newAction.name) && !IsVoteSwitch(oldAction, newAction)
    ensures ShowIcon(v, oldAction, newAction).Success?
    ensures ShownArrow(ShowIcon(v, oldAction, newAction).value) == Some(VoteOfName(newAction.name))
  {
  }

  /** The icon after each action of a swipe in turn, each reached from the one before. */
  function ShowTrace(v: IconState, previous: Option<SwipeAction>, actions: seq<SwipeAction>): Result<IconState, Error>
    decreases |actions|
  {
    if actions == [] then Success(v)
    else match ShowIcon(v, previous, actions[0])
      case Failure(e) => Failure(e)
      case Success(v') => ShowTrace(v', Some(actions[0]), actions[1..])
  }

  /** The actions are vote actions, each different from the one before, the first different from `previousName`. */
  predicate Alternates(previousName: string, actions: seq<SwipeAction>)
    decreases |actions|
  {
    actions == [] ||
    (IsVoteName(actions[0].name) && actions[0].name != previousName && Alternates(actions[0].name, actions[1..]))
  }

  /** Switching back and forth between the votes keeps an upward arrow image and always points the way of the latest vote. */
  lemma {:induction false} AlternatingVotesKeepArrowRight(v: IconState, previous: SwipeAction, actions: seq<SwipeAction>)
    requires v.image == ArrowUpward && IsVoteName(previous.name)
    requires ShownArrow(v) == Some(VoteOfName(previous.name))
    requires Alternates(previous.name, actions)
    ensures ShowTrace(v, Some(previous), actions).Success?
    ensures var w := ShowTrace(v, Some(previous), actions).value;
      w.image == ArrowUpward &&
      ShownArrow(w) == Some(VoteOfName(if actions == [] then previous.name else actions[|actions| - 1].name))
    decreases |actions|
  {
    if actions != [] {
      var v1 := ShowIcon(v, Some(previous), actions[0]).value;
      AlternatingVotesKeepArrowRight(v1, actions[0], actions[1..]);
      if |actions| > 1 {
        assert actions[1..][|actions| - 2] == actions[|actions| - 1];
      }
    }
  }

  /**
   * A swipe that reaches Upvote first and then switches between the votes always shows
   * the arrow of the vote it is on.
   */
  lemma GestureFromUpvoteShowsCurrentVote(v: IconState, previous: Option<SwipeAction>, actions: seq<SwipeAction>)
    requires |actions| > 0 && actions[0].name == UpvoteName
    requires previous.None? || previous.value.name != DownvoteName
    requires Alternates(UpvoteName, actions[1..])
    ensures ShowTrace(v, previous, actions).Success?
    ensures ShownArrow(ShowTrace(v, previous, actions).value) == Some(VoteOfName(actions[|actions| - 1].name))
  {
    var v1 := ShowIcon(v, previous, actions[0]).value;
    AlternatingVotesKeepArrowRight(v1, actions[0], actions[1..]);
    if |actions| > 1 {
      assert actions[1..][|actions| - 2] == actions[|actions| - 1];
    }
  }

  /** The other vote direction. */
  function OppositeVote(d: VoteDirection): (r: VoteDirection)
    ensures r == NoVote <==> d == NoVote
    ensures d != NoVote ==> r != d
  {
    match d
    case Up => Down
    case Down => Up
    case NoVote => NoVote
  }

  /**
   * As written, switching back and forth between the votes from a downward arrow image
   * keeps that image, so after every switch the icon comes to rest pointing the way
   * opposite to the vote it is on.
   */
  lemma {:induction false} AlternatingVotesFromDownwardArrowPointWrongWay(v: IconState, previous: SwipeAction, actions: seq<SwipeAction>)
    requires v.image == ArrowDownward && IsVoteName(previous.name)
    requires actions != [] && Alternates(previous.name, actions)
    ensures ShowTrace(v, Some(previous), actions).Success?
    ensures var w := ShowTrace(v, Some(previous), actions).value;
      w.image == ArrowDownward &&
      ShownArrow(w) == Some(OppositeVote(VoteOfName(actions[|actions| - 1].name)))
    decreases |actions|
  {
    var v1 := ShowIcon(v, Some(previous), actions[0]).value;
    if |actions| > 1 {
      AlternatingVotesFromDownwardArrowPointWrongWay(v1, actions[0], actions[1..]);
      assert actions[1..][|actions| - 2] == actions[|actions| - 1];
    }
  }

  /**
   * A swipe that reaches Downvote first shows the downward arrow; after every later switch
   * between the votes it comes to rest pointing opposite to the vote it is on.
   */
  lemma GestureFromDownvoteShowsOppositeVote(v: IconState, previous: Option<SwipeAction>, actions: seq<SwipeAction>)
    requires |actions| > 0 && actions[0].name == DownvoteName
    requires previous.None? || previous.value.name != UpvoteName
    requires Alternates(DownvoteName, actions[1..])
    ensures ShowTrace(v, previous, actions).Success?
    ensures |actions| == 1 ==> ShownArrow(ShowTrace(v, previous, actions).value) == Some(Down)
    ensures |actions| > 1 ==>
      ShownArrow(ShowTrace(v, previous, actions).value) == Some(OppositeVote(VoteOfName(actions[|actions| - 1].name)))
  {
    var v1 := ShowIcon(v, previous, actions[0]).value;
    if |actions| > 1 {
      AlternatingVotesFromDownwardArrowPointWrongWay(v1, actions[0], actions[1..]);
      assert actions[1..][|actions| - 2] == actions[|actions| - 1];
    }
  }

  /**
   * As written, a swipe that reaches Downvote first and then Upvote keeps the downward
   * image, flips it to 180 degrees and turns it a further half turn, so the Upvote icon
   * comes to rest pointing down.
   */
  lemma DownvoteThenUpvoteKeepsDownwardArrow(v: IconState)
    ensures ShowTrace(v, None, [DownvoteSwipeAction, UpvoteSwipeAction]) ==
      Success(IconState(ArrowDownward, 180, RotatingBy(180)))
    ensures ShownArrow(ShowTrace(v, None, [DownvoteSwipeAction, UpvoteSwipeAction]).value) == Some(Down)
  {
    var actions := [DownvoteSwipeAction, UpvoteSwipeAction];
    var v1 := IconState(ArrowDownward, 0, Idle);
    var v2 := IconState(ArrowDownward, 180, RotatingBy(180));
    assert ShowIcon(v1, Some(DownvoteSwipeAction), UpvoteSwipeAction) == Success(v2);
    assert actions[1..] == [UpvoteSwipeAction];
    assert ShowTrace(v1, Some(DownvoteSwipeAction), [UpvoteSwipeAction]) == Success(v2);
  }
}
