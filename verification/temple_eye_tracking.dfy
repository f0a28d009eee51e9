/** The TempleEye side of the patch: the constructor hook that marks eyes
    configured to follow Madeline with a tag, and the selector the patched
    `Update` calls to pick the actor the eye looks at. */
module TempleEyeTracking {
  import opened Wrappers

  /** Entity tags, compared by identity; bit allocation is not modelled. */
  datatype Tag = FollowMadelineTag | OtherTag(id: nat)

  /** The entity's placement; the engine's float vector is not modelled. */
  datatype Position = Position(x: int, y: int)

  /** A TempleEye instance as far as the patch is concerned. */
  datatype TempleEye = TempleEye(tags: set<Tag>, position: Position)

  /** The map-editor settings of one entity (boolean options only). */
  datatype EntityData = EntityData(values: map<string, bool>)

  /** The option name read at construction. */
  const FollowMadelineOption := "followMadeline"

  /** The tracker kinds the selector asks for, plus any other kind. */
  datatype ActorKind = Player | TheoCrystal | OtherKind(name: string)

  datatype Actor = Actor(kind: ActorKind, id: nat)

  /** `EntityData.Bool(key)`: the option's value, `false` when it is absent. */
  function DataBool(data: EntityData, key: string): (b: bool)
    ensures key in data.values ==> b == data.values[key]
    ensures key !in data.values ==> !b
  {
    key in data.values && data.values[key]
  }

  /** `Entity.AddTag`: adding a tag that is already there changes nothing. */
  function AddTag(e: TempleEye, t: Tag): (r: TempleEye)
    ensures t in r.tags && e.tags <= r.tags && r.tags - e.tags <= {t}
    ensures r.position == e.position
    ensures t in e.tags ==> r == e
  {
    e.(tags := e.tags + {t})
  }

  /** What the hook does once the original constructor has produced `built`. */
  function TagIfFollowing(built: TempleEye, data: EntityData): TempleEye
  {
    if DataBool(data, FollowMadelineOption) then AddTag(built, FollowMadelineTag) else built
  }

  /** `ModTempleEyeConstructor`: run the original constructor `orig` on
      `(self, data, offset)`, then tag the result when the `followMadeline`
      option is set. */
  function ConstructHooked(orig: (TempleEye, EntityData, Position) -> TempleEye,
                           self: TempleEye, data: EntityData, offset: Position): (r: TempleEye)
    ensures var built := orig(self, data, offset);
            && r.position == built.position
            && built.tags <= r.tags
            && r.tags - built.tags <= {FollowMadelineTag}
            && (FollowMadelineTag in r.tags <==> DataBool(data, FollowMadelineOption) || FollowMadelineTag in built.tags)
            && (!DataBool(data, FollowMadelineOption) ==> r == built)
  {
    TagIfFollowing(orig(self, data, offset), data)
  }

  /** The constructor as seen with `n` registrations of the hook stacked on
      the original (the innermost runs first). */
  function ConstructStacked(n: nat, orig: (TempleEye, EntityData, Position) -> TempleEye,
                            self: TempleEye, data: EntityData, offset: Position): TempleEye
  {
    if n == 0 then orig(self, data, offset)
    else TagIfFollowing(ConstructStacked(n - 1, orig, self, data, offset), data)
  }

  /** Stacking the hook more than once builds the same eye as one hook,
      because adding a present tag is a no-op. */
  lemma {:induction false} StackedHookTagsOnce(n: nat, orig: (TempleEye, EntityData, Position) -> TempleEye,
                                               self: TempleEye, data: EntityData, offset: Position)
    requires 1 <= n
    ensures ConstructStacked(n, orig, self, data, offset) == ConstructHooked(orig, self, data, offset)
  {
    if n > 1 {
      StackedHookTagsOnce(n - 1, orig, self, data, offset);
      var once := ConstructHooked(orig, self, data, offset);
      if DataBool(data, FollowMadelineOption) {
        assert FollowMadelineTag in once.tags;
        assert AddTag(once, FollowMadelineTag) == once;
      }
    }
  }

  /** The tracker answers every kind with an entity of that kind, or nothing. */
  ghost predicate LookupByKind(lookup: ActorKind -> Option<Actor>) {
    forall k :: lookup(k).Some? ==> lookup(k).value.kind == k
  }

  /** `ReturnTrackedActor`: the tracker's Player when the eye carries the
      follow tag, its TheoCrystal otherwise; an absent entity stays absent. */
  function ReturnTrackedActor(self: TempleEye, lookup: ActorKind -> Option<Actor>): (r: Option<Actor>)
    ensures r == lookup(Player) || r == lookup(TheoCrystal)
    ensures LookupByKind(lookup) && r.Some? ==>
              (r.value.kind == Player <==> FollowMadelineTag in self.tags)
    ensures LookupByKind(lookup) && r.Some? ==>
              (r.value.kind == TheoCrystal <==> FollowMadelineTag !in self.tags)
    ensures r.None? ==> (FollowMadelineTag in self.tags ==> lookup(Player).None?)
    ensures r.None? ==> (FollowMadelineTag !in self.tags ==> lookup(TheoCrystal).None?)
  {
    if FollowMadelineTag in self.tags then lookup(Player) else lookup(TheoCrystal)
  }

  /** End to end: an eye built through the hook, from a vanilla constructor
      that never sets the follow tag, tracks the Player exactly when its
      `followMadeline` option is set and the TheoCrystal otherwise. */
  lemma HookedEyeTracksConfiguredActor(orig: (TempleEye, EntityData, Position) -> TempleEye,
                                       self: TempleEye, data: EntityData, offset: Position,
                                       lookup: ActorKind -> Option<Actor>)
    requires FollowMadelineTag !in orig(self, data, offset).tags
    ensures var eye := ConstructHooked(orig, self, data, offset);
            var follow := FollowMadelineOption in data.values && data.values[FollowMadelineOption];
            ReturnTrackedActor(eye, lookup) == (if follow then lookup(Player) else lookup(TheoCrystal))
  {
  }

  /** With a tracker that answers by kind, the contract of
      `ReturnTrackedActor` leaves no choice: any result meeting it is the
      lookup the eye's tag picks. */
  lemma SelectorContractDeterminesResult(self: TempleEye, lookup: ActorKind -> Option<Actor>, r: Option<Actor>)
    requires LookupByKind(lookup)
    requires r == lookup(Player) || r == lookup(TheoCrystal)
    requires r.Some? ==> (r.value.kind == Player <==> FollowMadelineTag in self.tags)
    requires r.None? ==> (FollowMadelineTag in self.tags ==> lookup(Player).None?)
    requires r.None? ==> (FollowMadelineTag !in self.tags ==> lookup(TheoCrystal).None?)
    ensures r == (if FollowMadelineTag in self.tags then lookup(Player) else lookup(TheoCrystal))
  {
  }
}
