/**
 * The photo model and its activity encoder.
 *
 * A photo is identified by its name alone. To make a photo resumable the app
 * turns it into a user-activity record: a fixed activity type, a fixed title
 * that doubles as the routing path, and a one-entry `userInfo` dictionary
 * holding the photo's name under a fixed key.
 */
module Models {
  import opened Wrappers

  /** Activity type registered by the app for "open the detail screen". */
  const GalleryOpenDetailActivityType: string := "com.apple.gallery.openDetail"

  /** Title of the record; the restoration side routes on this string. */
  const GalleryOpenDetailPath: string := "openDetail"

  /** The `userInfo` key under which the photo's name travels. */
  const GalleryOpenDetailPhotoIdKey: string := "photoId"

  /** A photo; its name is also the key of its image asset. */
  datatype Photo = Photo(name: string)

  /**
   * A value found in a `userInfo` dictionary. The dictionary is
   * heterogeneous; all the restoration code can observe of a value is
   * whether the `as? String` cast succeeds, so every non-string value is
   * collapsed into `NonStr`.
   */
  datatype Val = Str(s: string) | NonStr

  /**
   * A user-activity record. Its title and its `userInfo` dictionary are both
   * optional, as they are on the platform's activity object.
   */
  datatype Activity = Activity(
    activityType: string,
    title: Option<string>,
    userInfo: Option<map<string, Val>>)

  /** The payload `[photoIdKey: name]` that the encoder attaches. */
  function PhotoPayload(p: Photo): map<string, Val>
  {
    map[GalleryOpenDetailPhotoIdKey := Str(p.name)]
  }

  /**
   * Encodes a photo as a resumable activity (`openDetailUserActivity`).
   * The type and the title never depend on the photo; the payload has
   * exactly one entry, the photo's name under the photo-id key.
   */
  function OpenDetailUserActivity(p: Photo): (a: Activity)
    ensures a.activityType == GalleryOpenDetailActivityType
    ensures a.title == Some(GalleryOpenDetailPath)
    ensures a.userInfo.Some?
    ensures a.userInfo.value.Keys == {GalleryOpenDetailPhotoIdKey}
    ensures |a.userInfo.value| == 1
    ensures a.userInfo.value[GalleryOpenDetailPhotoIdKey] == Str(p.name)
  {
    Activity(GalleryOpenDetailActivityType, Some(GalleryOpenDetailPath), Some(PhotoPayload(p)))
  }

  /** Two photos encode to the same record exactly when their names agree. */
  lemma EncodingDependsOnlyOnName(p: Photo, q: Photo)
    ensures OpenDetailUserActivity(p) == OpenDetailUserActivity(q) <==> p.name == q.name
  {
    if OpenDetailUserActivity(p) == OpenDetailUserActivity(q) {
      assert PhotoPayload(p)[GalleryOpenDetailPhotoIdKey] == PhotoPayload(q)[GalleryOpenDetailPhotoIdKey];
    }
  }
}
