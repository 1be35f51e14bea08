/**
 * The types the swipe-action provider works with but does not define: Reddit's vote
 * direction, the swipe widgets (actions, action sets, ripple kinds), the drawables an
 * icon view can show, and the submission being swiped. Android resource ids become
 * abstract tags.
 */
module SwipeTypes {

  /** A contribution's vote: UPVOTE, NO_VOTE or DOWNVOTE. */
  datatype VoteDirection = Up | NoVote | Down

  /** The colour resource a swipe action is painted with. */
  datatype SwipeColor = SaveColor | MoreOptionsColor | DownvoteColor | UpvoteColor

  /** A swipe action: its name, its background colour and its share of the swipe distance. */
  datatype SwipeAction = SwipeAction(name: string, color: SwipeColor, layoutWeight: real)

  /** The actions offered when swiping from the start edge and from the end edge. */
  datatype SwipeActions = SwipeActions(startActions: seq<SwipeAction>, endActions: seq<SwipeAction>)

  /** The ripple played when a swipe completes: UNDO for taking something back, REGISTER otherwise. */
  datatype RippleType = Undo | Register

  /** The drawables the swipe icon can show. */
  datatype Icon = MoreHoriz | Star | StarBorder | ArrowUpward | ArrowDownward

  /** The icon's running animation: none, or a rotation by some degrees from the current rotation. */
  datatype IconAnimation = Idle | RotatingBy(degrees: int)

  /** What a swipe icon view shows: its image, its rotation in degrees and its animation. */
  datatype IconState = IconState(image: Icon, rotation: int, animation: IconAnimation)

  /** A submission as the provider sees it: its full name and the vote Reddit reports for it. */
  datatype Submission = Submission(fullName: string, voteDirection: VoteDirection)
}
