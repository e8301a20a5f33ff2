# Gallery restoration: photo ↔ user-activity codec and scene router

A Dafny model of the one piece of self-contained logic in the Gallery sample
app. It covers three things:

- **Encoder** (`Photo.openDetailUserActivity`). A photo becomes a user-activity
  record. The activity type is fixed (`com.apple.gallery.openDetail`). The title
  is fixed (`openDetail`). The `userInfo` has one entry: `photoId` ↦ the photo's name.
- **Restoration router** (`SceneDelegate.configure(window:with:)`). It checks the
  title, then reads `userInfo["photoId"] as? String`. If a detail screen loads and
  the window's root is a navigation controller, it pushes that photo's detail
  screen without animation and returns `true`. In every other case it returns
  `false` and changes nothing. Connecting a scene prefers the first handed-off
  activity over the session's saved one. Taking a snapshot hands back the scene's
  current activity as it is.
- **Catalog** (`PhotoManager.sections`). A static table of three sections
  holding seven photos.

UIKit is abstracted away, as follows:

- A window is `Option<RootController>`. A root controller is `Nav(stack)` or
  `OtherRoot`.
- A `userInfo` value is `Str(s)` or `NonStr`. `NonStr` is any value the
  `as? String` cast rejects.
- Whether the detail screen's storyboard loads is a boolean parameter.
- `configure` returns an `Outcome`: its boolean answer, the window afterwards,
  and the push it performed (screen plus animated flag).

Modules: `Wrappers` (Option), `Models` (photo, activity record, encoder),
`Catalog` (sections, flattening, index-path lookup), `SceneDelegate` (router,
decoder, connect, snapshot).

## Model

| member | source | states |
|---|---|---|
| Models.OpenDetailUserActivity | Gallery/Models.swift:12-26 | The record's type is always "com.apple.gallery.openDetail" and its title is always "openDetail". Its userInfo has exactly one key, "photoId", and that key holds the photo's name as a string. |
| Models.EncodingDependsOnlyOnName | Gallery/Models.swift:16-25 | Two photos encode to equal records if and only if their names are equal. |
| Catalog.Flatten | Gallery/Models.swift:38-52 | A reference list, not an operation of the app: every section's photos, section by section. Its length is the total photo count of the sections, and it starts with the first section's photos. Its full contents are stated by Catalog.FlattenAt. |
| Catalog.CatalogShape | Gallery/Models.swift:38-52 | The catalog has exactly 3 sections, named "Section 1", "Section 2" and "Section 3" in that order, with 2, 3 and 2 photos (7 in all). |
| Catalog.CatalogOrder | Gallery/Models.swift:39-51 | Flattened in order, the photo names read "1.jpg" through "7.jpg" and are pairwise distinct. |
| Catalog.PhotoAt | Gallery/Models.swift:30-33 | Models the gallery view controller's `photo(at:)`, which looks up `sections[section].photos[row]` in this structure. The photo found belongs to that section. It is the photo at position offset(section) + row of the flattened catalog. |
| Catalog.FlattenAt | Gallery/Models.swift:38-52 | The photo at (section s, row r) is the one at position offset(s) + r of the flattened catalog, for any table of sections. |
| Catalog.CatalogNamesDistinct | Gallery/Models.swift:39-51 | Any two different valid index paths of the catalog hold photos with different names, so a name identifies one photo. |
| Catalog.SecondPhotoOfSecondSection | Gallery/Models.swift:43-47 | "Section 2" holds "3.jpg", "4.jpg", "5.jpg", and index path (1, 1) is "4.jpg". |
| SceneDelegate.PhotoIdOf | Gallery/SceneDelegate.swift:35 | A photo id is found if and only if userInfo is present, has the "photoId" key, and holds a string there. The id found is that string. |
| SceneDelegate.Configure | Gallery/SceneDelegate.swift:32-48 | It returns true if and only if a push happened. A push is always of one detail screen, unanimated, onto an existing navigation stack, which keeps its old screens and grows by one. On false the window is unchanged. |
| SceneDelegate.RestoredPhoto | Gallery/SceneDelegate.swift:34-38 | Decoding yields a photo if and only if the title is "openDetail" and userInfo holds a string under "photoId". The photo is named by that string. Other keys and the activity type do not matter. |
| SceneDelegate.SelectActivity | Gallery/SceneDelegate.swift:18 | The first handed-off activity is chosen if there is one, otherwise the session's saved activity. Something is chosen if and only if either exists. |
| SceneDelegate.WillConnect | Gallery/SceneDelegate.swift:17-24 | With an activity handed off, the result is configure on the first one. With none handed off but one saved, it is configure on the saved one. With neither, the window is left alone and configure is not applied. A failed handoff does not fall back to the saved activity. |
| SceneDelegate.StateRestorationActivity | Gallery/SceneDelegate.swift:26-28 | The snapshot is exactly the scene's current activity, or none when it has none. |
| SceneDelegate.DecodeEncode | Gallery/SceneDelegate.swift:34-38 | Decoding the encoding of any photo gives that photo back. |
| SceneDelegate.EncodeDecode | Gallery/SceneDelegate.swift:34-38 | A record decodes to photo p if and only if it has the same title and the same "photoId" entry as the encoding of p (Gallery/Models.swift:23-24). Its activity type and other userInfo entries play no part. |
| SceneDelegate.ConfigureAcceptsMatchingRecord | Gallery/SceneDelegate.swift:34-42 | Any record with the encoded title and "photoId" entry of p is restored, whatever else it holds. On a navigation root, with the storyboard loading, configure returns true and pushes p's detail screen unanimated on top of the old stack. |
| SceneDelegate.ConfigureDecodes | Gallery/SceneDelegate.swift:32-48 | Configure succeeds if and only if the record decodes, the storyboard loads, and the root is a navigation controller. When it succeeds, the pushed screen is the decoded photo's detail screen, unanimated. |
| SceneDelegate.RestoreRoundTrip | Gallery/SceneDelegate.swift:34-42 | Configuring a navigation stack with the encoding of Photo(n), when the storyboard loads, returns true and puts Detail(Photo(n)) on top of the old stack. |
| SceneDelegate.TitleFilter | Gallery/SceneDelegate.swift:34-47 | A record whose title is not "openDetail" (nil included) gives false and leaves the window unchanged, whatever its userInfo holds. |
| SceneDelegate.MalformedPayload | Gallery/SceneDelegate.swift:35-47 | A nil userInfo, a missing "photoId" key, or a non-string value gives false and leaves the window unchanged. |
| SceneDelegate.ActivityTypeIgnored | Gallery/SceneDelegate.swift:34 | Changing a record's activity type never changes what configure does; only the title is checked. |
| SceneDelegate.NoNavigationNoPush | Gallery/SceneDelegate.swift:37-43 | A nil window, a root that is not a navigation controller, or a failed storyboard load gives false and no push. |
| SceneDelegate.PushKeepsPrefix | Gallery/SceneDelegate.swift:41 | After a successful restore, a stack of depth d has depth d + 1 and its first d screens are the old ones. |
| SceneDelegate.HandoffPreferred | Gallery/SceneDelegate.swift:18-19 | If any activity is handed off, connecting configures from the first one, whatever the saved activity is. |
| SceneDelegate.NothingToRestore | Gallery/SceneDelegate.swift:18-22 | With nothing handed off and nothing saved, connecting leaves the window unchanged. |
| SceneDelegate.SnapshotRestoreCycle | Gallery/SceneDelegate.swift:17-28 | Snapshot a scene carrying photo p's record, then connect with nothing handed off: p's detail screen is pushed, unanimated, on top of the stack. |
| SceneDelegate.SecondSectionScenario | Gallery/Models.swift:18-47 | The photo at section 1, row 1 ("4.jpg") encodes to the open-detail title with payload {photoId: "4.jpg"}. Restoring it onto an empty navigation stack gives a one-screen stack showing "4.jpg". |

## Left out

- SceneDelegate.SelectActivity: `connectionOptions.userActivities` is a Swift `Set`, so `.first` is some element in the set's own iteration order. The model takes the activities as a sequence in that order and uses its head.
- The `Swift.debugPrint` diagnostic on a failed restore (Gallery/SceneDelegate.swift:20) is a log side effect and is not modelled.
- Storyboard instantiation of the detail screen (`PhotoDetailViewController.loadFromStoryboard`) is a boolean parameter. The view controller's source is not part of this model. In the source the load is attempted before the window is inspected; this has no observable effect here.
- UIKit objects (`UIWindow`, `UIScene`, `UISceneSession`, view-controller lifecycle, animation) appear only as the abstract values described above.
- `userInfo` values are heterogeneous (`[AnyHashable: Any]`). Only the outcome of the `as? String` cast is modelled, as `Str` or `NonStr`; keys are strings.
- Gallery/ExtSceneDelegate.swift is not modelled. It has an empty connect handler, a `configure` that always returns true, and the same snapshot pass-through, so it holds no routing logic.
- Drag-and-drop item construction, image assets and the Info.plist registration of the activity type are UI or configuration glue.
- Catalog.PhotoAt: the gallery's `photo(at:)` traps on an index path outside the table. The model states this as a precondition (`ValidIndex`) instead of modelling the trap.
- The shared singleton `PhotoManager.shared` is modelled as the constant function `Catalog.Sections`.
