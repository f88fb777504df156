/**
 * The mutable state of the pixel classifier pane around one classification
 * overlay: the slot that replaceOverlay swaps, the listeners that push the
 * pane's region, live-prediction and opacity settings into the installed
 * overlay, the hierarchy listener that decides when to retrain, and the
 * static registry of default feature-calculator builders.
 *
 * What doClassification trains is not modelled here: it arrives as the
 * overlay it would install, or null when it gives up before installing one.
 */
module PaneState {
  import PathClassTools

  type PathClass = PathClassTools.PathClass

  // ---------------------------------------------------------------------
  // Hierarchy events

  /** The two facts about a changed object that the hierarchy listener looks at. */
  datatype PathObject = PathObject(pathClass: PathClass, isAnnotation: bool)

  /** A hierarchy change as the listener sees it. */
  datatype HierarchyEvent = HierarchyEvent(
    isChanging: bool,
    isObjectMeasurementEvent: bool,
    isStructureChangeEvent: bool,
    isObjectClassificationEvent: bool,
    changedObjects: seq<PathObject>)

  /** A stream's anyMatch over a list. */
  function AnyMatch<T>(s: seq<T>, p: T -> bool): (b: bool)
    ensures b <==> exists i :: 0 <= i < |s| && p(s[i])
  {
    if s == [] then false else p(s[0]) || AnyMatch(s[1..], p)
  }

  predicate HasClass(p: PathObject) {
    p.pathClass != PathClassTools.Null
  }

  predicate IsAnnotation(p: PathObject) {
    p.isAnnotation
  }

  /**
   * HierarchyListener.hierarchyChanged: whether the event makes the pane
   * retrain. A finished, non-measurement event retrains when it is a
   * classification event or touches a classified object, and touches an
   * annotation; the test for a structure change or a non-empty list of
   * changed objects is then implied, because an annotation was changed.
   */
  function HierarchyChanged(e: HierarchyEvent): (retrain: bool)
    ensures retrain <==>
              && !e.isChanging
              && !e.isObjectMeasurementEvent
              && (e.isObjectClassificationEvent || exists i :: 0 <= i < |e.changedObjects| && HasClass(e.changedObjects[i]))
              && (exists i :: 0 <= i < |e.changedObjects| && IsAnnotation(e.changedObjects[i]))
  {
    if !e.isChanging && !e.isObjectMeasurementEvent
       && (e.isStructureChangeEvent || e.isObjectClassificationEvent || |e.changedObjects| != 0)
    then
      if e.isObjectClassificationEvent || AnyMatch(e.changedObjects, HasClass) then
        AnyMatch(e.changedObjects, IsAnnotation)
      else
        false
    else
      false
  }

  /** Events still in progress, measurement events and events without changed objects never retrain. */
  lemma NeverRetrains(e: HierarchyEvent)
    ensures e.isChanging ==> !HierarchyChanged(e)
    ensures e.isObjectMeasurementEvent ==> !HierarchyChanged(e)
    ensures e.changedObjects == [] ==> !HierarchyChanged(e)
  {
  }

  /** anyMatch depends only on which elements the list holds. */
  lemma AnyMatchSameElements<T>(a: seq<T>, b: seq<T>, p: T -> bool)
    requires forall x :: x in a <==> x in b
    ensures AnyMatch(a, p) == AnyMatch(b, p)
  {
    if AnyMatch(a, p) {
      var i :| 0 <= i < |a| && p(a[i]);
      assert a[i] in b;
    }
    if AnyMatch(b, p) {
      var j :| 0 <= j < |b| && p(b[j]);
      assert b[j] in a;
    }
  }

  /** Reordering the changed objects does not change whether the event retrains. */
  lemma RetrainIgnoresOrder(e: HierarchyEvent, objects: seq<PathObject>)
    requires multiset(objects) == multiset(e.changedObjects)
    ensures HierarchyChanged(e.(changedObjects := objects)) == HierarchyChanged(e)
  {
    assert |objects| == |multiset(objects)| == |e.changedObjects|;
    forall x
      ensures x in objects <==> x in e.changedObjects
    {
      assert x in objects <==> x in multiset(objects);
      assert x in e.changedObjects <==> x in multiset(e.changedObjects);
    }
    AnyMatchSameElements(objects, e.changedObjects, HasClass);
    AnyMatchSameElements(objects, e.changedObjects, IsAnnotation);
  }

  // ---------------------------------------------------------------------
  // The classification overlay and the pane

  datatype ClassificationRegion = WholeImage | AnnotationsOnly

  /** The settings the pane pushes into a pixel classification overlay. */
  class ClassificationOverlay {
    var stopped: bool
    var useAnnotationMask: bool
    var livePrediction: bool
    var opacity: real

    /** A freshly created overlay is running; its other settings are whatever the pane installs. */
    constructor ()
      ensures !stopped
    {
      stopped := false;
      useAnnotationMask := false;
      livePrediction := false;
      opacity := 1.0;
    }

    method Stop()
      modifies this
      ensures stopped
      ensures useAnnotationMask == old(useAnnotationMask) && livePrediction == old(livePrediction) && opacity == old(opacity)
    {
      stopped := true;
    }
  }

  class ClassifierPane {
    var overlay: ClassificationOverlay?
    var livePrediction: bool
    var region: ClassificationRegion
    var opacity: real

    /** The installed overlay, if any, carries the pane's current settings. */
    ghost predicate OverlayInSync()
      reads this, overlay
    {
      overlay != null ==>
        && overlay.useAnnotationMask == (region == AnnotationsOnly)
        && overlay.livePrediction == livePrediction
        && overlay.opacity == opacity
    }

    /**
     * A new pane: no overlay, live prediction off, full opacity, and the
     * region list's first entry selected (given, since the declaration order
     * of the regions is not part of this model).
     */
    constructor (firstRegion: ClassificationRegion)
      ensures overlay == null && !livePrediction && region == firstRegion && opacity == 1.0
      ensures OverlayInSync()
    {
      overlay := null;
      livePrediction := false;
      region := firstRegion;
      opacity := 1.0;
    }

    /**
     * replaceOverlay: stop the overlay being replaced, install the new
     * one and give it the pane's region, live-prediction and opacity
     * settings.
     */
    method ReplaceOverlay(newOverlay: ClassificationOverlay?)
      modifies this, overlay, newOverlay
      ensures overlay == newOverlay
      ensures livePrediction == old(livePrediction) && region == old(region) && opacity == old(opacity)
      ensures old(overlay) != null ==> old(overlay).stopped
      ensures newOverlay != null && newOverlay != old(overlay) ==> newOverlay.stopped == old(newOverlay.stopped)
      ensures OverlayInSync()
    {
      if overlay != null {
        overlay.Stop();
      }
      overlay := newOverlay;
      if overlay != null {
        overlay.useAnnotationMask := region == AnnotationsOnly;
        overlay.livePrediction := livePrediction;
        overlay.opacity := opacity;
      }
    }

    /**
     * updateClassifier(doClassification): train and install the resulting
     * overlay, or remove the overlay when classification is off. trained is
     * the overlay the training run builds, or null when it returns early
     * (no feature calculator, no classifier, no training data), in which
     * case the installed overlay stays. A training run always builds a new,
     * running overlay.
     */
    method UpdateClassifier(doClassification: bool, trained: ClassificationOverlay?)
      requires OverlayInSync()
      requires trained != null ==> trained != overlay && !trained.stopped
      modifies this, overlay, trained
      ensures !doClassification ==> overlay == null
      ensures trained != null && overlay != trained ==> unchanged(trained)
      ensures doClassification && trained != null ==> overlay == trained && !overlay.stopped
      ensures doClassification && trained == null ==> overlay == old(overlay) && (overlay != null ==> unchanged(overlay))
      ensures old(overlay) != null && old(overlay) != overlay ==> old(overlay).stopped
      ensures livePrediction == old(livePrediction) && region == old(region) && opacity == old(opacity)
      ensures OverlayInSync()
    {
      if doClassification {
        if trained != null {
          ReplaceOverlay(trained);
        }
      } else {
        ReplaceOverlay(null);
      }
    }

    /** HierarchyListener.hierarchyChanged: retrain with the pane's live-prediction flag when the event calls for it. */
    method OnHierarchyChanged(e: HierarchyEvent, trained: ClassificationOverlay?)
      requires OverlayInSync()
      requires trained != null ==> trained != overlay && !trained.stopped
      modifies this, overlay, trained
      ensures !HierarchyChanged(e) ==> unchanged(this) && (overlay != null ==> unchanged(overlay))
      ensures trained != null && overlay != trained ==> unchanged(trained)
      ensures HierarchyChanged(e) && !livePrediction ==> overlay == null
      ensures HierarchyChanged(e) && livePrediction && trained != null ==> overlay == trained && !overlay.stopped
      ensures HierarchyChanged(e) && livePrediction && trained == null ==>
                overlay == old(overlay) && (overlay != null ==> unchanged(overlay))
      ensures old(overlay) != null && old(overlay) != overlay ==> old(overlay).stopped
      ensures livePrediction == old(livePrediction) && region == old(region) && opacity == old(opacity)
      ensures OverlayInSync()
    {
      if HierarchyChanged(e) {
        UpdateClassifier(livePrediction, trained);
      }
    }

    /** The region listener: the installed overlay masks by annotations exactly when the region is annotations only. */
    method OnRegionChanged(r: ClassificationRegion)
      requires OverlayInSync()
      modifies this, overlay
      ensures region == r && overlay == old(overlay)
      ensures livePrediction == old(livePrediction) && opacity == old(opacity)
      ensures overlay != null ==> overlay.stopped == old(overlay.stopped)
      ensures OverlayInSync()
    {
      region := r;
      if overlay != null {
        overlay.useAnnotationMask := r == AnnotationsOnly;
      }
    }

    /**
     * The live-prediction listener, called when the flag changes: with no
     * overlay, switching live prediction on trains one; with an overlay, the
     * overlay follows the flag.
     */
    method OnLivePredictionChanged(live: bool, trained: ClassificationOverlay?)
      requires OverlayInSync()
      requires live != livePrediction
      requires trained != null ==> trained != overlay && !trained.stopped
      modifies this, overlay, trained
      ensures livePrediction == live && region == old(region) && opacity == old(opacity)
      ensures trained != null && overlay != trained ==> unchanged(trained)
      ensures old(overlay) != null ==> overlay == old(overlay) && overlay.stopped == old(overlay.stopped)
      ensures old(overlay) == null && live && trained != null ==> overlay == trained && !overlay.stopped
      ensures old(overlay) == null && !(live && trained != null) ==> overlay == null
      ensures OverlayInSync()
    {
      livePrediction := live;
      if overlay == null {
        if live {
          UpdateClassifier(live, trained);
          return;
        }
      } else {
        overlay.livePrediction := live;
      }
    }

    /** The opacity slider listener: the installed overlay follows the slider. */
    method OnOpacityChanged(value: real)
      requires OverlayInSync()
      modifies this, overlay
      ensures opacity == value && overlay == old(overlay)
      ensures livePrediction == old(livePrediction) && region == old(region)
      ensures overlay != null ==> overlay.stopped == old(overlay.stopped)
      ensures OverlayInSync()
    {
      opacity := value;
      if overlay != null {
        overlay.opacity := value;
      }
    }
  }

  // ---------------------------------------------------------------------
  // Default feature-calculator builders

  predicate NoRepeats<B(==)>(s: seq<B>) {
    forall i, j :: 0 <= i < j < |s| ==> s[i] != s[j]
  }

  /** The static list behind installDefaultFeatureClassificationBuilder. */
  class FeatureBuilderRegistry<B(==)> {
    var builders: seq<B>

    ghost predicate Valid()
      reads this
    {
      NoRepeats(builders)
    }

    /** The list starts empty. */
    constructor ()
      ensures builders == [] && Valid()
    {
      builders := [];
    }

    /** Add the builder unless an equal one is already present; report whether it was added. */
    method Install(builder: B) returns (added: bool)
      requires Valid()
      modifies this
      ensures added <==> builder !in old(builders)
      ensures builders == if added then old(builders) + [builder] else old(builders)
      ensures builder in builders
      ensures Valid()
    {
      if builder !in builders {
        builders := builders + [builder];
        return true;
      }
      return false;
    }
  }
}
