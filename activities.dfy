// The activity labels the classifiers return. The source passes them around as
// strings; each string becomes one constructor here and `Label` gives it back.
module Activities {

  datatype Activity =
    | NoPose            // "no_pose"
    | Initializing      // "initializing"
    | Unknown           // "unknown"
    | Reading           // "reading"
    | ReadingStanding   // "reading_standing"
    | Sitting           // "sitting"
    | SittingCrouching  // "sitting/crouching"
    | Standing          // "standing"
    | WalkingSlow       // "walking_slow"
    | Walking           // "walking"
    | WalkingFast       // "walking_fast"
    | Jogging           // "jogging"
    | Running           // "running"
    | Loitering         // "loitering"
    | ErraticMovement   // "erratic_movement"
    | PotentialFall     // "potential_fall"
    | LyingDown         // "lying_down"

  /** The string the source uses for an activity. */
  function Label(a: Activity): string {
    match a
    case NoPose => "no_pose"
    case Initializing => "initializing"
    case Unknown => "unknown"
    case Reading => "reading"
    case ReadingStanding => "reading_standing"
    case Sitting => "sitting"
    case SittingCrouching => "sitting/crouching"
    case Standing => "standing"
    case WalkingSlow => "walking_slow"
    case Walking => "walking"
    case WalkingFast => "walking_fast"
    case Jogging => "jogging"
    case Running => "running"
    case Loitering => "loitering"
    case ErraticMovement => "erratic_movement"
    case PotentialFall => "potential_fall"
    case LyingDown => "lying_down"
  }
}
