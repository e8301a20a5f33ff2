/**
 * The scene delegate's restoration router.
 *
 * On connect the delegate picks an activity record (a handed-off one first,
 * else the one saved for the session) and tries to configure the window
 * from it: when the record is an open-detail record carrying a photo id, a
 * detail screen for that photo is pushed, without animation, onto the root
 * navigation stack. Any record it does not recognise is ignored. The
 * snapshot side hands back whatever activity the scene currently carries.
 */
module SceneDelegate {
  import opened Wrappers
  import opened Models
  import Catalog

  /** A screen on a navigation stack. */
  datatype Screen = Gallery | Detail(photo: Photo)

  /** A window's root controller: a navigation stack, or anything else. */
  datatype RootController = Nav(stack: seq<Screen>) | OtherRoot

  /** A push the router performed on the navigation stack. */
  datatype Push = Push(screen: Screen, animated: bool)

  /**
   * What `configure` leaves behind: its boolean answer, the window
   * afterwards (`None` for a missing window), and the push it made, if any.
   */
  datatype Outcome = Outcome(configured: bool, window: Option<RootController>, pushed: Option<Push>)

  /** The scene as the snapshot side sees it: the activity it carries. */
  datatype Scene = Scene(userActivity: Option<Activity>)

  /** The outcome that leaves `window` exactly as it was. */
  function Unchanged(window: Option<RootController>): Outcome
  {
    Outcome(false, window, None)
  }

  /** Depth of the navigation stack of a window, 0 when there is none. */
  function Depth(window: Option<RootController>): nat
  {
    match window
    case Some(Nav(stack)) => |stack|
    case _ => 0
  }

  /**
   * `userInfo?[photoIdKey] as? String`: the photo id, if the dictionary is
   * present, holds the key, and the value there is a string.
   */
  function PhotoIdOf(userInfo: Option<map<string, Val>>): (r: Option<string>)
    ensures r.Some? <==> (userInfo.Some? && GalleryOpenDetailPhotoIdKey in userInfo.value
                          && userInfo.value[GalleryOpenDetailPhotoIdKey].Str?)
    ensures r.Some? ==> userInfo.value[GalleryOpenDetailPhotoIdKey] == Str(r.value)
  {
    match userInfo
    case None => None
    case Some(info) =>
      if GalleryOpenDetailPhotoIdKey in info then
        match info[GalleryOpenDetailPhotoIdKey]
        case Str(id) => Some(id)
        case NonStr => None
      else None
  }

  /**
   * `configure(window:with:)`. `storyboardLoads` stands for whether the
   * detail screen could be instantiated from its storyboard.
   */
  function Configure(window: Option<RootController>, activity: Activity, storyboardLoads: bool): (r: Outcome)
    ensures r.configured <==> r.pushed.Some?
    ensures !r.configured ==> r == Unchanged(window)
    ensures r.configured ==> window.Some? && window.value.Nav?
    ensures r.configured ==> && !r.pushed.value.animated
                             && r.pushed.value.screen.Detail?
                             && r.window == Some(Nav(window.value.stack + [r.pushed.value.screen]))
    ensures Depth(r.window) == if r.configured then Depth(window) + 1 else Depth(window)
  {
    if activity.title == Some(GalleryOpenDetailPath) then
      match PhotoIdOf(activity.userInfo)
      case Some(photoId) =>
        if storyboardLoads then
          match window
          case Some(Nav(stack)) =>
            var detail := Detail(Photo(photoId));
            Outcome(true, Some(Nav(stack + [detail])), Some(Push(detail, false)))
          case _ => Unchanged(window)
        else Unchanged(window)
      case None => Unchanged(window)
    else Unchanged(window)
  }

  /**
   * The decoding half of the codec, stated on its own: the photo a record
   * names, or `None` when the record is not an open-detail record or its
   * payload is missing or not a string.
   */
  function RestoredPhoto(activity: Activity): (r: Option<Photo>)
    ensures r.Some? <==> (&& activity.title == Some(GalleryOpenDetailPath)
                          && activity.userInfo.Some?
                          && GalleryOpenDetailPhotoIdKey in activity.userInfo.value
                          && activity.userInfo.value[GalleryOpenDetailPhotoIdKey].Str?)
    ensures r.Some? ==> activity.userInfo.value[GalleryOpenDetailPhotoIdKey] == Str(r.value.name)
  {
    if activity.title != Some(GalleryOpenDetailPath) then None
    else if activity.userInfo.None? then None
    else if GalleryOpenDetailPhotoIdKey !in activity.userInfo.value then None
    else match activity.userInfo.value[GalleryOpenDetailPhotoIdKey]
      case Str(name) => Some(Photo(name))
      case NonStr => None
  }

  /** `connectionOptions.userActivities.first ?? session.stateRestorationActivity`. */
  function SelectActivity(userActivities: seq<Activity>, saved: Option<Activity>): (r: Option<Activity>)
    ensures r.Some? <==> |userActivities| > 0 || saved.Some?
    ensures |userActivities| > 0 ==> r == Some(userActivities[0])
    ensures |userActivities| == 0 ==> r == saved
  {
    if |userActivities| > 0 then Some(userActivities[0]) else saved
  }

  /**
   * `scene(_:willConnectTo:options:)`: configure from the selected
   * activity, if there is one; otherwise leave the window alone.
   */
  function WillConnect(userActivities: seq<Activity>, saved: Option<Activity>,
                       window: Option<RootController>, storyboardLoads: bool): (r: Outcome)
    ensures |userActivities| > 0 ==> r == Configure(window, userActivities[0], storyboardLoads)
    ensures |userActivities| == 0 && saved.Some? ==> r == Configure(window, saved.value, storyboardLoads)
    ensures |userActivities| == 0 && saved.None? ==> r == Unchanged(window)
  {
    match SelectActivity(userActivities, saved)
    case Some(activity) => Configure(window, activity, storyboardLoads)
    case None => Unchanged(window)
  }

  /** `stateRestorationActivity(for:)`: the scene's activity, untouched. */
  function StateRestorationActivity(scene: Scene): (r: Option<Activity>)
    ensures r == scene.userActivity
  {
    scene.userActivity
  }

  // ---------------------------------------------------------------------
  // The codec

  /** Decoding an encoded photo gives the photo back. */
  lemma DecodeEncode(p: Photo)
    ensures RestoredPhoto(OpenDetailUserActivity(p)) == Some(p)
  {
  }

  /**
   * A record shares `p`'s encoded title and photo-id entry. The activity
   * type and any other `userInfo` entries are free.
   */
  predicate AgreesWithEncoding(a: Activity, p: Photo)
  {
    && a.title == OpenDetailUserActivity(p).title
    && a.userInfo.Some?
    && GalleryOpenDetailPhotoIdKey in a.userInfo.value
    && a.userInfo.value[GalleryOpenDetailPhotoIdKey]
       == OpenDetailUserActivity(p).userInfo.value[GalleryOpenDetailPhotoIdKey]
  }

  /**
   * A record decodes to `p` exactly when it carries the same title and the
   * same photo-id entry as the encoding of `p`. The activity type and the
   * other `userInfo` entries play no part in either direction.
   */
  lemma EncodeDecode(a: Activity, p: Photo)
    ensures RestoredPhoto(a) == Some(p) <==> AgreesWithEncoding(a, p)
  {
  }

  /**
   * Any record that agrees with the encoding of `p` is restored: on a
   * navigation root, with the storyboard loading, `configure` answers true
   * and pushes `p`'s detail screen unanimated on top of the old stack.
   */
  lemma ConfigureAcceptsMatchingRecord(a: Activity, p: Photo, stack: seq<Screen>)
    requires AgreesWithEncoding(a, p)
    ensures Configure(Some(Nav(stack)), a, true)
         == Outcome(true, Some(Nav(stack + [Detail(p)])), Some(Push(Detail(p), false)))
  {
    EncodeDecode(a, p);
    ConfigureDecodes(Some(Nav(stack)), a, true);
  }

  // ---------------------------------------------------------------------
  // The router against the codec

  /**
   * `configure` succeeds exactly when the record decodes, the storyboard
   * loads and the root is a navigation stack; the pushed screen is then the
   * decoded photo's detail screen.
   */
  lemma ConfigureDecodes(window: Option<RootController>, a: Activity, storyboardLoads: bool)
    ensures Configure(window, a, storyboardLoads).configured
        <==> RestoredPhoto(a).Some? && storyboardLoads && window.Some? && window.value.Nav?
    ensures Configure(window, a, storyboardLoads).configured ==>
              Configure(window, a, storyboardLoads).pushed == Some(Push(Detail(RestoredPhoto(a).value), false))
  {
  }

  /** Restoring from an encoded photo pushes that photo's detail screen on top. */
  lemma RestoreRoundTrip(n: string, stack: seq<Screen>)
    ensures Configure(Some(Nav(stack)), OpenDetailUserActivity(Photo(n)), true)
         == Outcome(true, Some(Nav(stack + [Detail(Photo(n))])), Some(Push(Detail(Photo(n)), false)))
  {
  }

  /** A record with another title is ignored, whatever its payload. */
  lemma TitleFilter(window: Option<RootController>, a: Activity, storyboardLoads: bool)
    requires a.title != Some(GalleryOpenDetailPath)
    ensures Configure(window, a, storyboardLoads) == Unchanged(window)
  {
  }

  /** A missing payload, a missing key or a non-string id is ignored too. */
  lemma MalformedPayload(window: Option<RootController>, a: Activity, storyboardLoads: bool)
    requires || a.userInfo.None?
             || GalleryOpenDetailPhotoIdKey !in a.userInfo.value
             || a.userInfo.value[GalleryOpenDetailPhotoIdKey] == NonStr
    ensures Configure(window, a, storyboardLoads) == Unchanged(window)
  {
  }

  /** The activity type plays no part in routing: only the title is checked. */
  lemma ActivityTypeIgnored(window: Option<RootController>, a: Activity, t: string, storyboardLoads: bool)
    ensures Configure(window, a.(activityType := t), storyboardLoads) == Configure(window, a, storyboardLoads)
  {
  }

  /** With no window, a non-navigation root, or no storyboard, nothing is pushed. */
  lemma NoNavigationNoPush(window: Option<RootController>, a: Activity, storyboardLoads: bool)
    requires window.None? || window.value.OtherRoot? || !storyboardLoads
    ensures Configure(window, a, storyboardLoads) == Unchanged(window)
  {
  }

  /**
   * A successful restore keeps the screens that were there and adds one:
   * depth d becomes d + 1 with the first d screens untouched.
   */
  lemma PushKeepsPrefix(stack: seq<Screen>, a: Activity)
    requires Configure(Some(Nav(stack)), a, true).configured
    ensures Configure(Some(Nav(stack)), a, true).window.value.stack[..|stack|] == stack
    ensures |Configure(Some(Nav(stack)), a, true).window.value.stack| == |stack| + 1
  {
  }

  // ---------------------------------------------------------------------
  // Connect and snapshot

  /** A handed-off activity wins over the saved one. */
  lemma HandoffPreferred(first: Activity, rest: seq<Activity>, saved: Option<Activity>,
                         window: Option<RootController>, storyboardLoads: bool)
    ensures WillConnect([first] + rest, saved, window, storyboardLoads)
         == Configure(window, first, storyboardLoads)
  {
  }

  /** With nothing handed off and nothing saved, the window is left alone. */
  lemma NothingToRestore(window: Option<RootController>, storyboardLoads: bool)
    ensures WillConnect([], None, window, storyboardLoads) == Unchanged(window)
  {
  }

  /**
   * Saving a scene that shows photo `p` and connecting again with nothing
   * handed off restores `p`'s detail screen on top of a navigation stack.
   */
  lemma SnapshotRestoreCycle(p: Photo, stack: seq<Screen>)
    ensures WillConnect([], StateRestorationActivity(Scene(Some(OpenDetailUserActivity(p)))),
                        Some(Nav(stack)), true)
         == Outcome(true, Some(Nav(stack + [Detail(p)])), Some(Push(Detail(p), false)))
  {
  }

  /**
   * The gallery's photo at section 1, row 1 is "4.jpg"; its record carries
   * `{photoId: "4.jpg"}` under the open-detail title, and restoring it on an
   * empty navigation stack leaves one screen, the detail of "4.jpg".
   */
  lemma SecondSectionScenario()
    ensures Catalog.ValidIndex(Catalog.Sections(), 1, 1)
    ensures var a := OpenDetailUserActivity(Catalog.PhotoAt(Catalog.Sections(), 1, 1));
            && a.title == Some(GalleryOpenDetailPath)
            && a.userInfo == Some(map[GalleryOpenDetailPhotoIdKey := Str("4.jpg")])
            && Configure(Some(Nav([])), a, true).window == Some(Nav([Detail(Photo("4.jpg"))]))
  {
    Catalog.SecondPhotoOfSecondSection();
    RestoreRoundTrip("4.jpg", []);
    assert [] + [Detail(Photo("4.jpg"))] == [Detail(Photo("4.jpg"))];
  }
}
