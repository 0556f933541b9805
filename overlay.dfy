/**
 * The value side of a geofence element: the records of home.page.ts, the pure decisions
 * `addMarker` takes (its id, the style it draws, the backup it records), and the
 * snapshot the page writes under the storage key "geofences" and reads back on reload.
 */
module Overlay {
  import opened Wrappers
  import opened CoordinateId

  const DefaultRadius := 250
  const DefaultFill := "#80bfff22"
  const DefaultStroke := "#3399ff"
  const StrokeWidth := 2

  /** The `CircleBackup` record kept on every element. */
  datatype CircleBackup = CircleBackup(radius: int, strokeColor: string, strokeWidth: int, fillColor: string)

  /** A drawn circle, reduced to the options its getters report. */
  datatype Circle = Circle(radius: int, fillColor: string, strokeColor: string, strokeWidth: int)

  /**
   * What `addMarker` is given: a `LatLng` from a long-press, or a plain record parsed
   * from storage, whose `circleBackup` may be missing.
   */
  datatype MarkerSource =
    | FromLatLng(lat: int, lng: int)
    | FromRecord(lat: int, lng: int, circleBackup: Option<CircleBackup>)

  /**
   * The value of a `GeofenceElement`: coordinates, id, the live circle's options, the
   * backup, and whether its marker and circle are still on the map.
   */
  datatype Fence = Fence(lat: int, lng: int, id: string, circle: Circle, circleBackup: CircleBackup, onMap: bool)
  {
    /** The fence after the slider wrote `v` into both the circle and the backup. */
    function WithRadius(v: int): (f: Fence)
      ensures Styled(this) ==> Styled(f)
      ensures f.circle.radius == v && f.circleBackup.radius == v
      ensures (f.lat, f.lng, f.id, f.onMap) == (lat, lng, id, onMap)
      ensures (f.circle.fillColor, f.circle.strokeColor, f.circle.strokeWidth) ==
              (circle.fillColor, circle.strokeColor, circle.strokeWidth)
      ensures (f.circleBackup.fillColor, f.circleBackup.strokeColor, f.circleBackup.strokeWidth) ==
              (circleBackup.fillColor, circleBackup.strokeColor, circleBackup.strokeWidth)
    {
      this.(circle := circle.(radius := v), circleBackup := circleBackup.(radius := v))
    }
  }

  /** An element as `JSON.stringify` writes it and `JSON.parse` gives it back, live handles left out. */
  datatype StoredRecord = StoredRecord(lat: int, lng: int, id: string, circleBackup: Option<CircleBackup>)

  /**
   * The shape of every element `addMarker` builds, kept by every later step: circle and
   * backup are two wide, and the backup holds the circle's stroke.
   */
  ghost predicate Styled(f: Fence)
  {
    && f.circle.strokeWidth == StrokeWidth
    && f.circleBackup.strokeWidth == StrokeWidth
    && f.circleBackup.strokeColor == f.circle.strokeColor
  }

  /** The style `addMarker` draws: the defaults, unless a stored record brings a backup. */
  function DrawnCircle(src: MarkerSource): (c: Circle)
    ensures c.strokeWidth == StrokeWidth
    ensures src.FromLatLng? || src.circleBackup.None? ==> c == Circle(DefaultRadius, DefaultFill, DefaultStroke, StrokeWidth)
  {
    match src
    case FromRecord(_, _, Some(b)) => Circle(b.radius, b.fillColor, b.strokeColor, StrokeWidth)
    case _ => Circle(DefaultRadius, DefaultFill, DefaultStroke, StrokeWidth)
  }

  /** A circle redrawn from a backup shows exactly the backup's radius, fill and stroke. */
  lemma RedrawFromBackup(lat: int, lng: int, b: CircleBackup)
    ensures var c := DrawnCircle(FromRecord(lat, lng, Some(b)));
            c.radius == b.radius && c.fillColor == b.fillColor && c.strokeColor == b.strokeColor
  {
  }

  /**
   * The element `addMarker` returns. Whatever backup came in, the recorded backup has
   * the default radius and fill; only the stroke is read back from the drawn circle.
   */
  function MarkerRecord(src: MarkerSource): (f: Fence)
    ensures Styled(f) && f.onMap
    ensures f.lat == src.lat && f.lng == src.lng && f.id == Id(src.lat, src.lng)
    ensures f.circle == DrawnCircle(src)
    ensures f.circleBackup.radius == DefaultRadius && f.circleBackup.fillColor == DefaultFill
  {
    var c := DrawnCircle(src);
    Fence(src.lat, src.lng, Id(src.lat, src.lng), c,
          CircleBackup(DefaultRadius, c.strokeColor, c.strokeWidth, DefaultFill), true)
  }

  /** Two creations at the same coordinates get the same id; different coordinates never share one. */
  lemma SameIdIffSameCoordinates(src: MarkerSource, src': MarkerSource)
    ensures MarkerRecord(src).id == MarkerRecord(src').id <==> src.lat == src'.lat && src.lng == src'.lng
  {
    IdInjective(src.lat, src.lng, src'.lat, src'.lng);
  }

  /** `JSON.stringify(geofencesElements)`, as far as reload later reads it. */
  function Serialize(fs: seq<Fence>): (rs: seq<StoredRecord>)
    ensures |rs| == |fs|
    ensures forall i :: 0 <= i < |fs| ==>
      rs[i] == StoredRecord(fs[i].lat, fs[i].lng, fs[i].id, Some(fs[i].circleBackup))
  {
    seq(|fs|, i requires 0 <= i < |fs| => StoredRecord(fs[i].lat, fs[i].lng, fs[i].id, Some(fs[i].circleBackup)))
  }

  /** How `addMarker` sees a parsed record: not a `LatLng`, so its backup is consulted. */
  function SourceOf(r: StoredRecord): (src: MarkerSource)
    ensures src.FromRecord?
    ensures src.lat == r.lat && src.lng == r.lng && src.circleBackup == r.circleBackup
  {
    FromRecord(r.lat, r.lng, r.circleBackup)
  }

  /**
   * The collection reload builds: nothing stored gives an empty collection, otherwise one
   * element per record, in order, each with its id recomputed from the record's coordinates.
   */
  function Reloaded(stored: Option<seq<StoredRecord>>): (fs: seq<Fence>)
    ensures stored.None? ==> fs == []
    ensures stored.Some? ==> |fs| == |stored.value|
    ensures stored.Some? ==> forall i :: 0 <= i < |fs| ==>
      && fs[i].lat == stored.value[i].lat && fs[i].lng == stored.value[i].lng
      && fs[i].id == Id(stored.value[i].lat, stored.value[i].lng)
      && fs[i] == MarkerRecord(SourceOf(stored.value[i]))
  {
    match stored
    case None => []
    case Some(rs) => seq(|rs|, i requires 0 <= i < |rs| => MarkerRecord(SourceOf(rs[i])))
  }

  /**
   * Writing a collection and reloading it keeps every element's coordinates, recomputes
   * its id from them (the saved id when that followed the id rule), and draws each circle
   * from the saved backup; the reloaded backups, however, are reset to the default radius
   * and fill.
   */
  lemma SaveThenReload(fs: seq<Fence>)
    ensures var r := Reloaded(Some(Serialize(fs)));
      && |r| == |fs|
      && forall i :: 0 <= i < |fs| ==>
        var b := fs[i].circleBackup;
        && (r[i].lat, r[i].lng, r[i].id) == (fs[i].lat, fs[i].lng, Id(fs[i].lat, fs[i].lng))
        && r[i].circle == Circle(b.radius, b.fillColor, b.strokeColor, StrokeWidth)
        && r[i].circleBackup == CircleBackup(DefaultRadius, b.strokeColor, StrokeWidth, DefaultFill)
        && (fs[i].id == Id(fs[i].lat, fs[i].lng) ==> r[i].id == fs[i].id)
  {
    var stored := Serialize(fs);
    forall i | 0 <= i < |fs|
      ensures Reloaded(Some(stored))[i] == MarkerRecord(FromRecord(fs[i].lat, fs[i].lng, Some(fs[i].circleBackup)))
    {
      assert stored[i] == StoredRecord(fs[i].lat, fs[i].lng, fs[i].id, Some(fs[i].circleBackup));
    }
  }

  /**
   * An element whose circle and backup agree on radius and fill (every element created or
   * resized in this session) is redrawn exactly as it was.
   */
  lemma SaveThenReloadRedraws(fs: seq<Fence>)
    requires forall i :: 0 <= i < |fs| ==> Styled(fs[i])
    ensures var r := Reloaded(Some(Serialize(fs)));
      forall i :: 0 <= i < |fs| ==>
        (fs[i].circle.radius == fs[i].circleBackup.radius && fs[i].circle.fillColor == fs[i].circleBackup.fillColor)
        ==> r[i].circle == fs[i].circle
  {
    SaveThenReload(fs);
  }

  /**
   * A resized radius survives one save and reload, but not two: the second reload draws
   * the backup the first reload recorded, whose radius is the default.
   */
  lemma ReloadTwiceDrawsDefaultRadius(fs: seq<Fence>)
    ensures var once := Reloaded(Some(Serialize(fs)));
            var twice := Reloaded(Some(Serialize(once)));
      && |twice| == |fs|
      && forall i :: 0 <= i < |fs| ==>
        once[i].circle.radius == fs[i].circleBackup.radius && twice[i].circle.radius == DefaultRadius
  {
    var once := Reloaded(Some(Serialize(fs)));
    SaveThenReload(fs);
    SaveThenReload(once);
  }
}
