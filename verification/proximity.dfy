/** The clickable things of the 3D plaza, `Hotspot` and `CatItem`. Each
    frame they compute whether the cat is near (planar x/z distance below
    2, y ignored); a click navigates to the item's link only when near,
    and the near flag also picks colours and shows an instruction. */
module Proximity {
  import opened Options
  import opened RealMath
  import opened CatStore

  const NearRadius: real := 2.0

  const White: string := "#FFFFFF"
  const Black: string := "#000000"
  const Grey: string := "#666666"
  const Amber: string := "#FBBF24"
  /** The instruction shown under a near item ("click to move"). */
  const ClickToMove: string := "クリックで移動"

  /** `Math.sqrt(dx*dx + dz*dz) < 2`, squared on both sides. */
  predicate IsNear(cat: Position, spot: Position) {
    SquaredDistance(cat.x, cat.z, spot.x, spot.z) < NearRadius * NearRadius
  }

  /** The squared test is the source's root test: for the root `d` of the
      squared planar distance, near holds exactly when `d < 2`. Heights do
      not matter, and a cat exactly 2 away on one axis is not near. */
  lemma IsNearIsPlanarDistanceBelow2(cat: Position, spot: Position, d: real, y: real)
    requires d >= 0.0 && d * d == SquaredDistance(cat.x, cat.z, spot.x, spot.z)
    ensures IsNear(cat, spot) <==> d < NearRadius
    ensures IsNear(cat.(y := y), spot) == IsNear(cat, spot)
    ensures !IsNear(Position(spot.x + NearRadius, y, spot.z), spot)
  {
    RootBelowIffSquareBelow(d, SquaredDistance(cat.x, cat.z, spot.x, spot.z), NearRadius);
  }

  /** `handleClick`: the link to navigate to, or nothing. */
  function HandleClick(near: bool, href: string): (r: Option<string>)
    ensures r.Some? <==> near
    ensures r.Some? ==> r.value == href
  {
    if near then Some(href) else None
  }

  /** The hotspot box's material. */
  datatype Material = Material(color: string, emissive: string, emissiveIntensity: real)

  /** White only when hovered and near, else the hotspot's colour; glowing
      in its colour at half intensity when near, else no glow. */
  function HotspotMaterial(hovered: bool, near: bool, color: string): (m: Material)
    ensures hovered && near ==> m.color == White
    ensures !(hovered && near) ==> m.color == color
    ensures near ==> m.emissive == color && m.emissiveIntensity == 0.5
    ensures !near ==> m.emissive == Black && m.emissiveIntensity == 0.0
  {
    Material(
      if hovered && near then White else color,
      if near then color else Black,
      if near then 0.5 else 0.0)
  }

  /** The hotspot label's colour. */
  function HotspotLabelColor(near: bool): (c: string)
    ensures near ==> c == White
    ensures !near ==> c == Grey
  {
    if near then White else Grey
  }

  /** The item label's colour. */
  function CatItemLabelColor(near: bool): (c: string)
    ensures near ==> c == Amber
    ensures !near ==> c == Grey
  {
    if near then Amber else Grey
  }

  /** The instruction under a hotspot or an item: shown only when near. */
  function Instruction(near: bool): (r: Option<string>)
    ensures r.Some? <==> near
    ensures r.Some? ==> r.value == ClickToMove
  {
    if near then Some(ClickToMove) else None
  }

  /** A click with the cat where it is: the link exactly when the cat's
      planar distance is below 2, whatever its height. */
  lemma ClickNavigatesOnlyWhenNear(cat: Position, spot: Position, href: string, d: real)
    requires d >= 0.0 && d * d == SquaredDistance(cat.x, cat.z, spot.x, spot.z)
    ensures var r := HandleClick(IsNear(cat, spot), href);
            && (r == Some(href) <==> d < NearRadius)
            && (r == None <==> d >= NearRadius)
            && (r.Some? <==> Instruction(IsNear(cat, spot)).Some?)
  {
    IsNearIsPlanarDistanceBelow2(cat, spot, d, cat.y);
  }

  /** Everything an item shows follows the planar distance: below 2 the
      label lights up (white on a hotspot, amber on an item), the box
      glows in its colour and turns white under the pointer, and the
      instruction appears; at 2 or more the labels are grey, the box keeps
      its colour without glow even when hovered, and no instruction is
      shown. */
  lemma NearnessDecidesView(cat: Position, spot: Position, d: real, hovered: bool, color: string)
    requires d >= 0.0 && d * d == SquaredDistance(cat.x, cat.z, spot.x, spot.z)
    ensures var near := IsNear(cat, spot);
            && (d < NearRadius ==>
                  && HotspotLabelColor(near) == White && CatItemLabelColor(near) == Amber
                  && HotspotMaterial(hovered, near, color) == Material(if hovered then White else color, color, 0.5)
                  && Instruction(near) == Some(ClickToMove))
            && (d >= NearRadius ==>
                  && HotspotLabelColor(near) == Grey && CatItemLabelColor(near) == Grey
                  && HotspotMaterial(hovered, near, color) == Material(color, Black, 0.0)
                  && Instruction(near) == None)
  {
    IsNearIsPlanarDistanceBelow2(cat, spot, d, cat.y);
  }
}
