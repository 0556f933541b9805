/**
 * The `HomePage` component of src/app/home/home.page.ts: the ordered collection of
 * geofence elements, the selection pointer, and the gesture handlers that change them.
 * Calls into the native geofence plugin are recorded as requests; the answer to a
 * removal request arrives later through `OnRemoveResolved` or `OnRemoveRejected`.
 */
module Home {
  import opened Wrappers
  import opened CoordinateId
  import opened Overlay
  import JsArray

  /** One entry of the argument array of `addOrUpdateFence`, with the plugin's field names. */
  datatype FenceArgs = FenceArgs(id: string, latitud: int, longitud: int, radius: int)

  /** A call the page made into the native geofence plugin. */
  datatype NativeRequest =
    | AddOrUpdateFence(fences: seq<FenceArgs>)
    | RemoveGeofence(id: string)

  /**
   * A `GeofenceElement` record. The page's array and its selection share these objects,
   * so a radius edit through the selection is seen in the array, and `indexOf` compares
   * identities. The circle and the backup belong to exactly one element each and are
   * kept here as the values they hold; `onMap` records whether marker and circle are
   * still drawn.
   */
  class GeofenceElement {
    const lat: int
    const lng: int
    const id: string
    var circle: Circle
    var circleBackup: CircleBackup
    var onMap: bool

    function View(): Fence
      reads this
    {
      Fence(lat, lng, id, circle, circleBackup, onMap)
    }

    /** The record literal `addMarker` returns, built around the marker and circle it drew. */
    constructor (src: MarkerSource)
      ensures View() == MarkerRecord(src)
    {
      var f := MarkerRecord(src);
      lat, lng, id := f.lat, f.lng, f.id;
      circle, circleBackup, onMap := f.circle, f.circleBackup, f.onMap;
    }
  }

  /** The values of a sequence of elements, position by position. */
  function Views(s: seq<GeofenceElement>): (fs: seq<Fence>)
    reads s
    ensures |fs| == |s|
    ensures forall i :: 0 <= i < |s| ==> fs[i] == s[i].View()
  {
    seq(|s|, i requires 0 <= i < |s| reads s => s[i].View())
  }

  /** `find(curr => curr.id === id)` as a position: the first element with that id, or -1. */
  function FirstWithId(s: seq<GeofenceElement>, id: string): (k: int)
    ensures -1 <= k < |s|
    ensures k == -1 <==> forall j :: 0 <= j < |s| ==> s[j].id != id
    ensures 0 <= k ==> s[k].id == id && forall j :: 0 <= j < k ==> s[j].id != id
  {
    if s == [] then -1
    else if s[0].id == id then 0
    else
      var k' := FirstWithId(s[1..], id);
      if k' == -1 then -1 else k' + 1
  }

  class HomePage {
    /** `geofencesElements`. */
    var elements: seq<GeofenceElement>
    /** `currGeofenceElement`: null, or the element the edit panel acts on. */
    var current: GeofenceElement?
    /** `ionRange.value`, as far as the page writes it. */
    var rangeValue: int
    /** Whether `#bottom-modal` carries the class `modal-shown`. */
    var modalShown: bool
    /** The calls made into the native plugin, oldest first. */
    var requests: seq<NativeRequest>
    /** Removal promises that have not settled yet. */
    var pendingRemovals: nat
    /** The last value this page wrote under the storage key "geofences"; None before the first write. */
    ghost var snapshot: Option<seq<StoredRecord>>

    /**
     * Every element the page holds, and the selection, keep the shape `addMarker` gave them:
     * a two-wide circle whose backup holds the circle's stroke. (The id rule needs no place
     * here: `lat`, `lng` and `id` are constants the element's constructor fixes.)
     */
    ghost predicate Valid()
      reads this`elements, this`current, elements, current
    {
      && (forall e :: e in elements ==> Styled(e.View()))
      && (current != null ==> Styled(current.View()))
    }

    /** The collection as values. */
    function Fences(): seq<Fence>
      reads this`elements, elements
    {
      Views(elements)
    }

    constructor (initialRange: int)
      ensures Valid()
      ensures elements == [] && current == null && rangeValue == initialRange && !modalShown
      ensures requests == [] && pendingRemovals == 0 && snapshot == None
    {
      elements, current, rangeValue, modalShown := [], null, initialRange, false;
      requests, pendingRemovals, snapshot := [], 0, None;
    }

    /** `localStorage.setItem('geofences', JSON.stringify(this.geofencesElements))`. */
    method SaveSnapshot()
      modifies this`snapshot
      ensures snapshot == Some(Serialize(Fences()))
    {
      snapshot := Some(Serialize(Fences()));
    }

    /** `geofencesElements.push(e)`. */
    method Push(e: GeofenceElement)
      modifies this`elements
      ensures elements == old(elements) + [e]
      ensures Fences() == old(Fences()) + [e.View()]
    {
      elements := elements + [e];
    }

    /** `addMarker`: draws a marker and a circle and returns the new element. */
    method AddMarker(src: MarkerSource) returns (e: GeofenceElement)
      ensures fresh(e) && e.View() == MarkerRecord(src)
    {
      e := new GeofenceElement(src);
    }

    /**
     * Long-press at (lat, lng): appends one new element, asks the plugin to monitor it
     * with the default radius, and writes the snapshot. The selection is untouched.
     */
    method OnMapLongClick(lat: int, lng: int)
      requires Valid()
      modifies this`elements, this`requests, this`snapshot
      ensures Valid()
      ensures |elements| == |old(elements)| + 1 && elements[..|old(elements)|] == old(elements)
      ensures fresh(elements[|old(elements)|])
      ensures Fences() == old(Fences()) + [MarkerRecord(FromLatLng(lat, lng))]
      ensures current == old(current) && (current != null ==> current.View() == old(current.View()))
      ensures requests == old(requests) + [AddOrUpdateFence([FenceArgs(Id(lat, lng), lat, lng, DefaultRadius)])]
      ensures snapshot == Some(Serialize(Fences()))
      ensures rangeValue == old(rangeValue) && modalShown == old(modalShown) && pendingRemovals == old(pendingRemovals)
    {
      var e := AddMarker(FromLatLng(lat, lng));
      Push(e);
      requests := requests + [AddOrUpdateFence([FenceArgs(e.id, lat, lng, DefaultRadius)])];
      SaveSnapshot();
    }

    /** A tap or a drag on the map: hides the edit panel and clears the selection. */
    method OnMapClickOrDrag()
      requires Valid()
      modifies this`modalShown, this`current
      ensures Valid()
      ensures current == null && !modalShown
      ensures elements == old(elements) && Fences() == old(Fences())
      ensures requests == old(requests) && snapshot == old(snapshot)
      ensures rangeValue == old(rangeValue) && pendingRemovals == old(pendingRemovals)
    {
      modalShown := false;
      current := null;
    }

    /**
     * `manageModalOpen`: selects the first element with the given id, shows its circle's
     * radius on the slider and writes the snapshot. The id must be present: the result of
     * `find` is dereferenced unchecked.
     */
    method ManageModalOpen(id: string)
      requires Valid()
      requires exists i :: 0 <= i < |elements| && elements[i].id == id
      modifies this`current, this`rangeValue, this`snapshot
      ensures Valid()
      ensures elements == old(elements) && Fences() == old(Fences())
      ensures current == elements[FirstWithId(elements, id)] && current.id == id
      ensures rangeValue == current.circle.radius
      ensures snapshot == Some(Serialize(Fences()))
      ensures requests == old(requests) && modalShown == old(modalShown) && pendingRemovals == old(pendingRemovals)
    {
      var k := FirstWithId(elements, id);
      current := elements[k];
      rangeValue := current.circle.radius;
      SaveSnapshot();
    }

    /** A tap on the marker of the element with this id: shows the edit panel, then `manageModalOpen`. */
    method OnMarkerClick(id: string)
      requires Valid()
      requires exists i :: 0 <= i < |elements| && elements[i].id == id
      modifies this`modalShown, this`current, this`rangeValue, this`snapshot
      ensures Valid()
      ensures elements == old(elements) && Fences() == old(Fences())
      ensures current == elements[FirstWithId(elements, id)] && current.id == id
      ensures rangeValue == current.circle.radius && modalShown
      ensures snapshot == Some(Serialize(Fences()))
      ensures requests == old(requests) && pendingRemovals == old(pendingRemovals)
    {
      modalShown := true;
      ManageModalOpen(id);
    }

    /**
     * `manageModalEditRadius`: writes the slider's value into the selected element's
     * circle and backup and writes the snapshot. Nothing is sent to the plugin.
     */
    method ManageModalEditRadius(newVal: int)
      requires Valid() && current != null
      modifies this`snapshot, current
      ensures Valid()
      ensures elements == old(elements) && current == old(current)
      ensures current.View() == old(current.View()).WithRadius(newVal)
      ensures forall i :: 0 <= i < |elements| ==>
        Fences()[i] == if elements[i] == current then old(Fences()[i]).WithRadius(newVal) else old(Fences()[i])
      ensures snapshot == Some(Serialize(Fences()))
      ensures requests == old(requests) && rangeValue == old(rangeValue)
      ensures modalShown == old(modalShown) && pendingRemovals == old(pendingRemovals)
    {
      current.circle := current.circle.(radius := newVal);
      current.circleBackup := current.circleBackup.(radius := newVal);
      SaveSnapshot();
    }

    /** `manageModalMouseUp`: sends the selected element with its circle's radius to the plugin. */
    method ManageModalMouseUp()
      requires Valid() && current != null
      modifies this`requests, this`snapshot
      ensures Valid()
      ensures current == old(current) && current.View() == old(current.View())
      ensures requests == old(requests) + [AddOrUpdateFence([FenceArgs(current.id, current.lat, current.lng, current.circle.radius)])]
      ensures snapshot == Some(Serialize(Fences()))
      ensures elements == old(elements) && Fences() == old(Fences())
      ensures rangeValue == old(rangeValue) && modalShown == old(modalShown) && pendingRemovals == old(pendingRemovals)
    {
      requests := requests + [AddOrUpdateFence([FenceArgs(current.id, current.lat, current.lng, current.circle.radius)])];
      SaveSnapshot();
    }

    /**
     * `renderPreviousFences`: replaces the collection by one freshly drawn element per
     * stored record, in order; a missing entry gives an empty collection.
     */
    method RenderPreviousFences(stored: Option<seq<StoredRecord>>)
      requires Valid()
      modifies this`elements
      ensures Valid()
      ensures Fences() == Reloaded(stored)
      ensures forall e :: e in elements ==> fresh(e)
      ensures current == old(current) && (current != null ==> current.View() == old(current.View()))
      ensures requests == old(requests) && snapshot == old(snapshot)
      ensures rangeValue == old(rangeValue) && modalShown == old(modalShown) && pendingRemovals == old(pendingRemovals)
    {
      var records := if stored.Some? then stored.value else [];
      var built := AddMarkers(records);
      assert Views(built) == Reloaded(stored);
      elements := built;
    }

    /** `records.map(fence => this.addMarker(fence))`: draws one new element per record, in order. */
    method AddMarkers(records: seq<StoredRecord>) returns (built: seq<GeofenceElement>)
      ensures |built| == |records|
      ensures forall j :: 0 <= j < |records| ==> fresh(built[j]) && built[j].View() == MarkerRecord(SourceOf(records[j]))
    {
      built := [];
      var i := 0;
      while i < |records|
        invariant 0 <= i <= |records| && |built| == i
        invariant forall j :: 0 <= j < i ==> fresh(built[j]) && built[j].View() == MarkerRecord(SourceOf(records[j]))
      {
        var e := AddMarker(SourceOf(records[i]));
        built := built + [e];
        i := i + 1;
      }
    }

    /**
     * The synchronous part of `removeFence`: with a selection, splices the selection's
     * `indexOf` position out of the array and asks the plugin to remove its id. The
     * selection, the panel and the snapshot stay as they are until the answer arrives.
     */
    method RemoveFence()
      requires Valid()
      modifies this`elements, this`requests, this`pendingRemovals
      ensures Valid()
      ensures old(current) == null ==>
        elements == old(elements) && requests == old(requests) && pendingRemovals == old(pendingRemovals)
      ensures old(current) != null ==>
        && elements == JsArray.SpliceOut(old(elements), JsArray.IndexOf(old(elements), current))
        && requests == old(requests) + [RemoveGeofence(old(current).id)]
        && pendingRemovals == old(pendingRemovals) + 1
      ensures current == old(current) && (current != null ==> current.View() == old(current.View()))
      ensures snapshot == old(snapshot) && rangeValue == old(rangeValue) && modalShown == old(modalShown)
    {
      if current != null {
        var index := JsArray.IndexOf(elements, current);
        elements := JsArray.SpliceOut(elements, index);
        requests := requests + [RemoveGeofence(current.id)];
        pendingRemovals := pendingRemovals + 1;
      }
    }

    /**
     * The plugin accepted a removal. The callback acts on the selection as it is NOW:
     * it takes that element's marker and circle off the map, hides the panel, clears the
     * selection and writes the snapshot. With no selection the first dereference throws
     * and the `.catch` swallows it, so only the promise settles.
     */
    method OnRemoveResolved()
      requires Valid() && pendingRemovals > 0
      modifies this`pendingRemovals, this`modalShown, this`current, this`snapshot, current
      ensures Valid()
      ensures current == null && pendingRemovals == old(pendingRemovals) - 1
      ensures elements == old(elements) && requests == old(requests) && rangeValue == old(rangeValue)
      ensures old(current) == null ==> modalShown == old(modalShown) && snapshot == old(snapshot)
      ensures old(current) != null ==>
        && old(current).View() == old(current.View()).(onMap := false)
        && !modalShown
        && snapshot == Some(Serialize(Fences()))
      ensures forall i :: 0 <= i < |elements| ==>
        Fences()[i] == if elements[i] == old(current) then old(Fences()[i]).(onMap := false) else old(Fences()[i])
    {
      pendingRemovals := pendingRemovals - 1;
      if current != null {
        current.onMap := false;
        modalShown := false;
        current := null;
        SaveSnapshot();
      }
    }

    /** The plugin refused a removal: the error is logged and nothing else happens. */
    method OnRemoveRejected()
      requires Valid() && pendingRemovals > 0
      modifies this`pendingRemovals
      ensures Valid()
      ensures pendingRemovals == old(pendingRemovals) - 1
      ensures elements == old(elements) && Fences() == old(Fences())
      ensures current == old(current) && (current != null ==> current.View() == old(current.View()))
      ensures requests == old(requests) && snapshot == old(snapshot)
      ensures rangeValue == old(rangeValue) && modalShown == old(modalShown)
    {
      pendingRemovals := pendingRemovals - 1;
    }
  }

  /**
   * What the page invariant buys on reload: every element whose circle agrees with its
   * backup in radius and fill is redrawn exactly as it is now.
   */
  lemma ValidPageRedrawsOnReload(page: HomePage)
    requires page.Valid()
    ensures var fs := page.Fences();
            var r := Reloaded(Some(Serialize(fs)));
      forall i :: 0 <= i < |fs| ==>
        (fs[i].circle.radius == fs[i].circleBackup.radius && fs[i].circle.fillColor == fs[i].circleBackup.fillColor)
        ==> r[i].circle == fs[i].circle
  {
    var fs := page.Fences();
    forall i | 0 <= i < |fs|
      ensures Styled(fs[i])
    {
      assert fs[i] == page.elements[i].View() && page.elements[i] in page.elements;
    }
    SaveThenReloadRedraws(fs);
  }

  /**
   * The start of a session on a fresh page: a long-press at (lat, lng) creates a geofence,
   * and a tap on its marker selects it with the default radius on the slider.
   */
  method CreateAndSelect(lat: int, lng: int) returns (page: HomePage, e: GeofenceElement)
    ensures fresh(page) && fresh(e) && page.Valid()
    ensures page.elements == [e] && page.current == e && page.modalShown
    ensures e.View() == MarkerRecord(FromLatLng(lat, lng)) && page.rangeValue == DefaultRadius
    ensures page.requests == [AddOrUpdateFence([FenceArgs(Id(lat, lng), lat, lng, DefaultRadius)])]
    ensures page.snapshot == Some(Serialize(page.Fences())) && page.pendingRemovals == 0
  {
    page := new HomePage(0);
    page.OnMapLongClick(lat, lng);
    e := page.elements[0];
    assert page.elements == [e];
    page.OnMarkerClick(e.id);
  }

  /**
   * One session on a fresh page: create a geofence at (lat, lng), tap its marker, resize it
   * to `r`, release the slider, remove it, and receive the plugin's answer.
   */
  method CreateResizeRemove(lat: int, lng: int, r: int) returns (page: HomePage)
    ensures page.Valid()
    ensures page.elements == [] && page.current == null && !page.modalShown
    ensures page.snapshot == Some([]) && page.pendingRemovals == 0
    ensures page.requests == [
      AddOrUpdateFence([FenceArgs(Id(lat, lng), lat, lng, DefaultRadius)]),
      AddOrUpdateFence([FenceArgs(Id(lat, lng), lat, lng, r)]),
      RemoveGeofence(Id(lat, lng))]
  {
    var e;
    page, e := CreateAndSelect(lat, lng);
    var created := page.requests[0];
    page.ManageModalEditRadius(r);
    assert e.circle.radius == r;
    page.ManageModalMouseUp();
    assert page.requests == [created, AddOrUpdateFence([FenceArgs(e.id, lat, lng, r)])];
    page.RemoveFence();
    assert page.elements == [] && page.current == e;
    page.OnRemoveResolved();
  }

  /**
   * A second `removeFence` before the first is answered: the selection is no longer in the
   * array, `indexOf` gives -1, and the n - 1 remaining elements become 2(n - 1) - 1.
   */
  method RemoveTwiceBeforeAnswer(page: HomePage)
    requires page.Valid() && page.current != null
    requires page.current in page.elements && |page.elements| >= 2
    requires forall i, j :: 0 <= i < j < |page.elements| && page.elements[i] == page.current ==> page.elements[j] != page.current
    modifies page
    ensures page.Valid()
    ensures |page.elements| == 2 * |old(page.elements)| - 3
    ensures page.current == old(page.current) && page.current !in page.elements
    ensures page.requests == old(page.requests) + [RemoveGeofence(page.current.id), RemoveGeofence(page.current.id)]
    ensures page.pendingRemovals == old(page.pendingRemovals) + 2
  {
    var c, s := page.current, page.elements;
    JsArray.SpliceOutTwice(s, c);
    page.RemoveFence();
    var once := page.elements;
    assert once == JsArray.SpliceOut(s, JsArray.IndexOf(s, c)) && c !in once;
    page.RemoveFence();
    assert page.elements == JsArray.SpliceOut(once, JsArray.IndexOf(once, c));
    assert page.elements == once[..|once| - 1] + once;
  }

  /**
   * A removal the plugin refuses, starting from a drawn selection and an up-to-date
   * snapshot (as a marker tap leaves them): the element has left the array, yet it stays
   * selected, stays on the map, and the snapshot still holds its record.
   */
  method RemoveThenRejected(page: HomePage)
    requires page.Valid() && page.current != null && page.pendingRemovals == 0
    requires page.current in page.elements && page.current.onMap
    requires forall i, j :: 0 <= i < j < |page.elements| && page.elements[i] == page.current ==> page.elements[j] != page.current
    requires page.snapshot == Some(Serialize(page.Fences()))
    modifies page
    ensures page.Valid()
    ensures page.current == old(page.current) && page.current !in page.elements
    ensures page.current.View() == old(page.current.View()) && page.current.onMap
    ensures |page.elements| == |old(page.elements)| - 1
    ensures page.snapshot == old(page.snapshot) && page.pendingRemovals == 0
    ensures page.snapshot.Some? &&
      StoredRecord(page.current.lat, page.current.lng, page.current.id, Some(page.current.circleBackup)) in page.snapshot.value
  {
    var k := JsArray.IndexOf(page.elements, page.current);
    assert Serialize(page.Fences())[k] ==
      StoredRecord(page.current.lat, page.current.lng, page.current.id, Some(page.current.circleBackup));
    JsArray.SpliceOutOnlyOccurrence(page.elements, page.current);
    page.RemoveFence();
    page.OnRemoveRejected();
  }
}
