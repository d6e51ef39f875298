/** The pixel buffers of the display core: the remote base, the base last
    presented, the two software pictures that are swapped after a submission,
    and the three local planes. No buffer is shared. */
module Buffers {
  import opened Geometry
  import opened Pixels
  import opened Raster
  import opened Regions
  import opened Tiles
  import opened Ink
  import opened Surface
  import opened TileSearch
  import opened Refresh
  import opened Backend
  import Core

  ghost predicate WhiteSurface(s: PixelSurface, width: nat, height: nat, format: Format)
    reads s, s.pixels
  {
    && s.Valid()
    && (s.width, s.height, s.format) == (width, height, format)
    && s.image == seq(Size(width, height), _ => White(format))
  }

  ghost predicate Blank(p: LocalOverlay, width: nat, height: nat)
    reads p, p.luma, p.alpha
  {
    p.Valid() && p.View() == BlankPlane(Size(width, height))
  }

  method NewSurfaces(width: nat, height: nat, format: Format)
    returns (a: PixelSurface, b: PixelSurface, c: PixelSurface, d: PixelSurface)
    requires width > 0 && height > 0
    ensures WhiteSurface(a, width, height, format) && WhiteSurface(b, width, height, format)
    ensures WhiteSurface(c, width, height, format) && WhiteSurface(d, width, height, format)
    ensures fresh({a, b, c, d}) && fresh({a.pixels, b.pixels, c.pixels, d.pixels})
    ensures a.pixels != b.pixels && a.pixels != c.pixels && a.pixels != d.pixels
    ensures b.pixels != c.pixels && b.pixels != d.pixels && c.pixels != d.pixels
  {
    hide Size;
    a := new PixelSurface(width, height, format);
    b := new PixelSurface(width, height, format);
    c := new PixelSurface(width, height, format);
    d := new PixelSurface(width, height, format);
  }

  method NewPlanes(width: nat, height: nat) returns (a: LocalOverlay, b: LocalOverlay, c: LocalOverlay)
    requires width > 0 && height > 0
    ensures Blank(a, width, height) && Blank(b, width, height) && Blank(c, width, height)
    ensures fresh({a, b, c}) && fresh({a.luma, a.alpha, b.luma, b.alpha, c.luma, c.alpha})
    ensures a != b && a != c && b != c
    ensures a.luma != b.luma && a.luma != b.alpha && a.alpha != b.luma && a.alpha != b.alpha
    ensures a.luma != c.luma && a.luma != c.alpha && a.alpha != c.luma && a.alpha != c.alpha
    ensures b.luma != c.luma && b.luma != c.alpha && b.alpha != c.luma && b.alpha != c.alpha
  {
    hide Size;
    a := new LocalOverlay(width, height);
    b := new LocalOverlay(width, height);
    c := new LocalOverlay(width, height);
  }

  class BufferSet {
    const base: PixelSurface
    const presentedBase: PixelSurface
    const menu: LocalOverlay
    const peer: LocalOverlay
    const ink: LocalOverlay
    var presented: PixelSurface
    var working: PixelSurface

    /** The two buffers that `presented` and `working` swap. */
    ghost const bufferA: PixelSurface
    ghost const bufferB: PixelSurface

    /** Everything that may change. */
    ghost const footprint: set<object>

    ghost predicate Apart() {
      && base.pixels != presentedBase.pixels && base.pixels != bufferA.pixels && base.pixels != bufferB.pixels
      && presentedBase.pixels != bufferA.pixels && presentedBase.pixels != bufferB.pixels
      && bufferA.pixels != bufferB.pixels
      && menu != peer && menu != ink && peer != ink
      && PlanesApart(base.pixels) && PlanesApart(presentedBase.pixels)
      && PlanesApart(bufferA.pixels) && PlanesApart(bufferB.pixels)
      && menu.luma != menu.alpha && peer.luma != peer.alpha && ink.luma != ink.alpha
      && menu.luma != peer.luma && menu.luma != peer.alpha && menu.alpha != peer.luma && menu.alpha != peer.alpha
      && menu.luma != ink.luma && menu.luma != ink.alpha && menu.alpha != ink.luma && menu.alpha != ink.alpha
      && peer.luma != ink.luma && peer.luma != ink.alpha && peer.alpha != ink.luma && peer.alpha != ink.alpha
    }

    ghost predicate Built() {
      var shapes :=
        && base.Sized() && presentedBase.Sized() && bufferA.Sized() && bufferB.Sized()
        && base.SameShape(presentedBase) && base.SameShape(bufferA) && base.SameShape(bufferB)
        && menu.luma.Length == peer.luma.Length == ink.luma.Length == base.pixels.Length;
      var apart := Apart();
      var owned :=
        footprint == {this, menu, peer, ink, base, presentedBase, bufferA, bufferB,
                      base.pixels, presentedBase.pixels, bufferA.pixels, bufferB.pixels,
                      menu.luma, menu.alpha, peer.luma, peer.alpha, ink.luma, ink.alpha};
      shapes && apart && owned
    }

    ghost predicate PlanesApart(pixels: array<Pixel>) {
      menu.Apart(pixels) && peer.Apart(pixels) && ink.Apart(pixels)
    }

    ghost predicate Valid()
      reads this, footprint
    {
      && Built()
      && Swapped()
      && (var surfaces := base.Valid() && presentedBase.Valid() && presented.Valid() && working.Valid(); surfaces)
      && (var planes := menu.Valid() && peer.Valid() && ink.Valid(); planes)
    }

    ghost predicate Swapped()
      reads this
    {
      var swapped := (presented == bufferA && working == bufferB) || (presented == bufferB && working == bufferA);
      swapped
    }

    ghost function View(): Pictures
      requires Built() && Swapped()
      reads this, footprint
    {
      Pictures(base.image, presentedBase.image, presented.image, working.image, menu.View(), peer.View(), ink.View())
    }

    constructor (width: nat, height: nat, format: Format)
      requires width > 0 && height > 0
      ensures Valid() && fresh(footprint)
      ensures (base.width, base.height, base.format) == (width, height, format)
      ensures var white := seq(Size(width, height), _ => White(format));
              var plane := BlankPlane(Size(width, height));
              View() == Pictures(white, white, white, white, plane, plane, plane)
    {
      hide Size;
      var b, pb, pr, wk := NewSurfaces(width, height, format);
      var m, pe, i := NewPlanes(width, height);
      base, presentedBase, presented, working := b, pb, pr, wk;
      menu, peer, ink := m, pe, i;
      bufferA, bufferB := pr, wk;
      footprint := {this, m, pe, i, b, pb, pr, wk, b.pixels, pb.pixels, pr.pixels, wk.pixels,
                    m.luma, m.alpha, pe.luma, pe.alpha, i.luma, i.alpha};
    }

    lemma Ready()
      requires Valid()
      ensures Built() && Swapped()
    {
    }

    lemma ViewSizes()
      requires Valid()
      ensures Sizes(Size(base.width, base.height), View()) && |View().base| == Size(base.width, base.height)
      ensures PlaneOkButDirty(View().menu) && PlaneOkButDirty(View().peer) && PlaneOkButDirty(View().ink)
    {
    }

    ghost predicate PlaneOkButDirty(p: Plane) {
      p.transparent ==> forall i :: 0 <= i < |p.alpha| ==> p.alpha[i] == 0
    }

    method ApplyBase(regions: seq<Region>) returns (error: Option<SurfaceError>)
      requires Valid()
      modifies footprint
      ensures Valid()
      ensures error == ValidateRegions(base.width, base.height, regions)
      ensures View() == if error.Some? then old(View())
                        else old(View()).(base := ApplyAll(base.width, base.height, old(View()).base, regions))
    {
      hide Size, ValidateRegions, ApplyAll;
      error := base.ApplyRegionsAtomic(regions);
    }

    /** Base := presented base. */
    method RestoreBase()
      requires Valid()
      modifies footprint
      ensures Valid() && View() == old(View()).(base := old(View()).presentedBase)
    {
      hide Size;
      base.CloneFrom(presentedBase);
    }

    /** Presented base := base. */
    method RecordBase()
      requires Valid()
      modifies footprint
      ensures Valid() && View() == old(View()).(presentedBase := old(View()).base)
    {
      hide Size;
      presentedBase.CloneFrom(base);
    }

    /** Working := presented. */
    method RevertWorking()
      requires Valid()
      modifies footprint
      ensures Valid() && View() == old(View()).(working := old(View()).presented)
    {
      hide Size;
      working.CloneFrom(presented);
    }

    /** Base with the producer overlay and the ink, as an owned surface. */
    method ComposeBase() returns (composed: PixelSurface)
      requires Valid()
      ensures fresh(composed) && fresh(composed.pixels) && composed.Valid() && composed.SameShape(base)
      ensures composed.image == Layered(Layered(base.image, peer.View()), ink.View())
    {
      hide Size, Over;
      if peer.transparent && ink.transparent {
        composed := new PixelSurface(base.width, base.height, base.format);
        composed.CloneFrom(base);
        LayeredTransparent(base.image, peer.View());
        LayeredTransparent(base.image, ink.View());
        return;
      }
      var first := base.Compose(peer);
      var second := first.value.Compose(ink);
      composed := second.value;
    }

    /** Recomposes the listed rectangles of the working buffer. */
    method ComposeInto(regions: seq<Rect>)
      requires Valid() && AllValid(base.width, base.height, regions)
      modifies footprint
      ensures Valid()
      ensures Sizes(|old(View()).base|, old(View()))
      ensures View() == old(View()).(working := Painted(base.width, old(View()).working, PictureOf(old(View())), regions))
    {
      hide Size, Over, ValidRect, Painted;
      ghost var was := View();
      ViewSizes();
      var error: Option<SurfaceError>;
      if peer.transparent && ink.transparent {
        LayeredTransparent(was.base, was.peer);
        LayeredTransparent(was.base, was.ink);
        error := base.ComposeRegionsInto(menu, working, regions);
      } else {
        var composed := ComposeBase();
        error := composed.ComposeRegionsInto(menu, working, regions);
      }
    }

    /** The other way to recompose: copy the base, then blend plane by plane in
        place. The listed rectangles are disjoint. */
    method BlendInto(regions: seq<Rect>)
      requires Valid() && AllValid(base.width, base.height, regions) && PairwiseDisjoint(regions)
      modifies footprint
      ensures Valid()
      ensures Sizes(|old(View()).base|, old(View()))
      ensures View() == old(View()).(working := Painted(base.width, old(View()).working, PictureOf(old(View())), regions))
    {
      hide Size, Over, ValidRect, Painted, BlendAll, Composed, Overlaps;
      ghost var was := View();
      ViewSizes();
      var error := working.CopyRegionsFrom(base, regions);
      error := working.BlendRegions(peer, regions);
      error := working.BlendRegions(ink, regions);
      error := working.BlendRegions(menu, regions);
      CompositionPathsAgree(base.width, base.height, was.working, was.base, was.peer, was.ink, was.menu, regions);
    }

    /** After an accepted submission: the buffers swap, and the new working
        buffer catches up on the damage. */
    method SwapBuffers(damage: seq<Rect>)
      requires Valid() && AllValid(base.width, base.height, damage)
      modifies footprint
      ensures Valid()
      ensures Sizes(|old(View()).base|, old(View()))
      ensures View() == old(View()).(
                presented := old(View()).working,
                working := Painted(base.width, old(View()).presented, old(View()).working, damage))
    {
      hide Size, ValidRect, Painted;
      ViewSizes();
      presented, working := working, presented;
      var error := working.CopyRegionsFrom(presented, damage);
    }

    /** The swap, and the base recorded as presented. */
    method PresentFrame(damage: seq<Rect>)
      requires Valid() && AllValid(base.width, base.height, damage)
      modifies footprint
      ensures Valid()
      ensures Sizes(|old(View()).base|, old(View()))
      ensures View() == old(View()).(
                presented := old(View()).working,
                working := Painted(base.width, old(View()).presented, old(View()).working, damage),
                presentedBase := old(View()).base)
    {
      hide Size, ValidRect, Painted, Built, View;
      SwapBuffers(damage);
      RecordBase();
    }

    /** The presented buffer catches up on the damage. */
    method ShowWorking(damage: seq<Rect>)
      requires Valid() && AllValid(base.width, base.height, damage)
      modifies footprint
      ensures Valid()
      ensures Sizes(|old(View()).base|, old(View()))
      ensures View() == old(View()).(presented := Painted(base.width, old(View()).presented, old(View()).working, damage))
    {
      hide Size, ValidRect, Painted;
      ViewSizes();
      var error := presented.CopyRegionsFrom(working, damage);
    }

    /** The changed tiles among those the regions touch. */
    method FindDamage(tile: nat, regions: seq<Rect>) returns (damage: seq<Rect>)
      requires Valid() && AllValid(base.width, base.height, regions)
      ensures Sizes(|View().base|, View()) && |View().base| == Size(base.width, base.height)
      ensures damage == TileDamageRegions(base.width, base.height, tile, View().presented, View().working, regions)
    {
      hide Size, ValidRect, TileDamageRegions;
      ViewSizes();
      damage := SearchRegions(presented, working, tile, regions);
    }

    /** Whether a rectangle differs between the two software pictures. */
    method Differs(r: Rect) returns (changed: bool)
      requires Valid() && ValidRect(base.width, base.height, r)
      ensures Sizes(|View().base|, View()) && |View().base| == Size(base.width, base.height)
      ensures changed <==> ChangedIn(base.width, base.height, View().presented, View().working, r)
    {
      hide Size, ValidRect, ChangedIn;
      ViewSizes();
      changed := RectChanged(base.width, base.height, presented.pixels[..], working.pixels[..], r);
    }

    method SubmitWorking(panel: PanelBackend, damage: seq<Rect>, d: Decision) returns (physical: Option<nat>)
      requires Valid() && panel !in footprint && |panel.image| == Size(base.width, base.height)
      modifies panel
      ensures Sizes(|View().base|, View()) && |View().base| == Size(base.width, base.height)
      ensures physical == Core.Answered(old(panel.View()))
      ensures panel.View() == Core.SubmitTo(base.width, old(panel.View()), View().working, damage, d)
    {
      hide Size;
      ViewSizes();
      physical := panel.Submit(working, damage, d);
    }

    method SubmitPresented(panel: PanelBackend, damage: seq<Rect>, d: Decision) returns (physical: Option<nat>)
      requires Valid() && panel !in footprint && |panel.image| == Size(base.width, base.height)
      modifies panel
      ensures Sizes(|View().base|, View()) && |View().base| == Size(base.width, base.height)
      ensures physical == Core.Answered(old(panel.View()))
      ensures panel.View() == Core.SubmitTo(base.width, old(panel.View()), View().presented, damage, d)
    {
      hide Size;
      ViewSizes();
      physical := panel.Submit(presented, damage, d);
    }

    method TakeDirty() returns (dirty: Option<Rect>)
      requires Valid()
      modifies footprint
      ensures Valid() && dirty == old(View()).ink.dirty
      ensures View() == old(View()).(ink := old(View()).ink.(dirty := None))
    {
      hide Size;
      dirty := ink.TakeDirty();
    }

    // ------------------------------------------------------------ plane edits

    method ReplaceMenu(luma: seq<bv8>, alpha: seq<bv8>) returns (ok: bool)
      requires Valid()
      modifies footprint
      ensures Valid()
      ensures ok <==> |luma| == |alpha| == Size(base.width, base.height)
      ensures View() == if ok then old(View()).(menu := Plane(luma, alpha, AllZero(alpha), old(View()).menu.dirty))
                        else old(View())
    {
      hide Size, AllZero;
      ok := menu.ReplacePlanes(luma, alpha);
    }

    method PatchPeer(rect: Rect, luma: seq<bv8>, alpha: seq<bv8>) returns (ok: bool)
      requires Valid()
      modifies footprint
      ensures Valid()
      ensures ok <==> PatchOk(base.width, base.height, rect, luma, alpha)
      ensures View() == if ok then old(View()).(peer := Patched(base.width, base.height, old(View()).peer, rect, luma, alpha))
                        else old(View())
    {
      hide Size, PatchOk, Patched, Row;
      RowsExact(base.width, base.height);
      WidthNeeded(base.width, base.height, rect, luma, alpha);
      ok := peer.Patch(base.width, rect, luma, alpha);
    }

    method ClearPeer()
      requires Valid()
      modifies footprint
      ensures Valid() && View() == old(View()).(peer := Cleared(old(View()).peer))
    {
      hide Size, Cleared;
      peer.Clear();
    }

    method ClearInk()
      requires Valid()
      modifies footprint
      ensures Valid() && View() == old(View()).(ink := Cleared(old(View()).ink))
    {
      hide Size, Cleared;
      ink.Clear();
    }

    method InkSegment(from: Point, to: Point, radius: nat, erase: bool)
      requires Valid() && OnPanel(base.width, base.height, from) && OnPanel(base.width, base.height, to)
      modifies footprint
      ensures Valid() && |old(View()).ink.luma| == |old(View()).ink.alpha| == Size(base.width, base.height)
      ensures View() == old(View()).(
                ink := InkLine(base.width, base.height, old(View()).ink, from, to, radius, erase))
    {
      hide Size, InkLine;
      ink.InkSegment(base.width, base.height, from, to, radius, erase);
    }
  }

  lemma WidthNeeded(w: nat, h: nat, rect: Rect, luma: seq<bv8>, alpha: seq<bv8>)
    ensures PatchOk(w, h, rect, luma, alpha) ==> w != 0
  {
  }
}
