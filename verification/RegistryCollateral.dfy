/** What a set of assets is worth as collateral, and what a replacement does to it. */
module RegistryCollateral {
  import opened Results
  import opened MapSums
  import opened Registry
  import opened RegistryRuns

  // ---- collateral units

  /** The asset at the top of a parent chain. */
  ghost function Root(assets: map<AssetId, Asset>, id: AssetId): (root: AssetId)
    requires ParentsOk(assets) && id in assets
    ensures root in assets && assets[root].parent.None?
    decreases if assets[id].parent.Some? then 1 else 0
  {
    assert ParentOk(assets, assets[id]);
    if assets[id].parent.None? then id
    else
      assert ParentOk(assets, assets[assets[id].parent.value]);
      Root(assets, assets[id].parent.value)
  }

  ghost predicate Known(assets: map<AssetId, Asset>, ids: seq<AssetId>) {
    forall i :: 0 <= i < |ids| ==> ids[i] in assets
  }

  ghost function Roots(assets: map<AssetId, Asset>, ids: seq<AssetId>): set<AssetId>
    requires ParentsOk(assets) && Known(assets, ids)
  {
    set i | 0 <= i < |ids| :: Root(assets, ids[i])
  }

  function UnitsOf(a: Asset): int {
    if a.active then a.unitCount else 0
  }

  /** Each root once, at its own unit count; a retired one counts nothing. */
  ghost function Units(assets: map<AssetId, Asset>, ids: seq<AssetId>): map<AssetId, int>
    requires ParentsOk(assets) && Known(assets, ids)
  {
    map root | root in Roots(assets, ids) :: UnitsOf(assets[root])
  }

  lemma RootsGrow(assets: map<AssetId, Asset>, ids: seq<AssetId>, i: nat)
    requires ParentsOk(assets) && Known(assets, ids) && i < |ids|
    ensures Known(assets, ids[..i]) && Known(assets, ids[..i + 1])
    ensures Roots(assets, ids[..i + 1]) == Roots(assets, ids[..i]) + {Root(assets, ids[i])}
  {
    hide ParentsOk, Root;
    var longer := ids[..i + 1];
    assert forall k :: 0 <= k < i ==> longer[k] == ids[..i][k];
    forall root | root in Roots(assets, longer)
      ensures root in Roots(assets, ids[..i]) + {Root(assets, ids[i])}
    {
      var k :| 0 <= k < |longer| && Root(assets, longer[k]) == root;
      if k < i {
        assert ids[..i][k] == longer[k];
      }
    }
    forall root | root in Roots(assets, ids[..i]) + {Root(assets, ids[i])}
      ensures root in Roots(assets, longer)
    {
      if root == Root(assets, ids[i]) {
        assert longer[i] == ids[i];
      } else {
        var k :| 0 <= k < i && Root(assets, ids[..i][k]) == root;
        assert longer[k] == ids[..i][k];
      }
    }
  }

  lemma UnitsGrow(assets: map<AssetId, Asset>, ids: seq<AssetId>, i: nat)
    requires ParentsOk(assets) && Known(assets, ids) && i < |ids|
    ensures Known(assets, ids[..i]) && Known(assets, ids[..i + 1])
    ensures var root := Root(assets, ids[i]);
      Units(assets, ids[..i + 1]) == Units(assets, ids[..i])[root := UnitsOf(assets[root])]
  {
    hide ParentsOk, Root, Roots, UnitsOf;
    RootsGrow(assets, ids, i);
  }

  /** Follow each asset's parents to the top; chains are finite because the registry keeps them so. */
  method CollateralUnits(assets: map<AssetId, Asset>, ids: seq<AssetId>) returns (r: Result<map<AssetId, int>, Error>)
    requires ParentsOk(assets)
    ensures r.Ok? <==> Known(assets, ids)
    ensures r.Ok? ==> r.value == Units(assets, ids)
    ensures r.Err? ==> r.error == NotFound
  {
    hide ParentsOk, Units, Root;
    var units: map<AssetId, int> := map[];
    assert Units(assets, []) == map[] by { NoUnits(assets); }
    for i := 0 to |ids|
      invariant Known(assets, ids[..i]) && units == Units(assets, ids[..i])
    {
      if ids[i] !in assets {
        return Err(NotFound);
      }
      var root := FindRoot(assets, ids[i]);
      assert Known(assets, ids[..i + 1]);
      assert ids[..i + 1][..i] == ids[..i] && ids[..i + 1][..i + 1] == ids[..i + 1];
      UnitsGrow(assets, ids[..i + 1], i);
      if !assets[root].active {
        units := units[root := 0];
      } else {
        units := units[root := assets[root].unitCount];
      }
    }
    assert ids[..|ids|] == ids;
    r := Ok(units);
  }

  lemma NoUnits(assets: map<AssetId, Asset>)
    requires ParentsOk(assets)
    ensures Units(assets, []) == map[]
  {
  }

  method FindRoot(assets: map<AssetId, Asset>, id: AssetId) returns (root: AssetId)
    requires ParentsOk(assets) && id in assets
    ensures root == Root(assets, id)
  {
    root := id;
    while assets[root].parent.Some?
      invariant root in assets && Root(assets, root) == Root(assets, id)
      decreases if assets[root].parent.Some? then 1 else 0
    {
      assert ParentOk(assets, assets[root]);
      assert ParentOk(assets, assets[assets[root].parent.value]);
      root := assets[root].parent.value;
    }
  }

  /** Listing an asset again, or any partition of one listed already, adds nothing. */
  lemma ListedTwiceCountsOnce(assets: map<AssetId, Asset>, ids: seq<AssetId>, again: AssetId)
    requires ParentsOk(assets) && Known(assets, ids) && again in assets
    requires exists i :: 0 <= i < |ids| && Root(assets, ids[i]) == Root(assets, again)
    ensures Known(assets, ids + [again]) && Units(assets, ids + [again]) == Units(assets, ids)
  {
    hide ParentsOk, Root;
    UnitsGrow(assets, ids + [again], |ids|);
    assert (ids + [again])[..|ids|] == ids && (ids + [again])[..|ids| + 1] == ids + [again];
    assert Root(assets, again) in Roots(assets, ids);
  }

  /** Any listing of one GPU and its partitions is worth the GPU's units, once. */
  lemma FamilyCountsOnce(assets: map<AssetId, Asset>, ids: seq<AssetId>, gpu: AssetId)
    requires ParentsOk(assets) && Known(assets, ids) && ids != [] && gpu in assets
    requires forall i :: 0 <= i < |ids| ==> Root(assets, ids[i]) == gpu
    ensures Sum(Units(assets, ids)) == UnitsOf(assets[gpu])
  {
    hide ParentsOk, Root, UnitsOf, Sum;
    assert Root(assets, ids[0]) == gpu;
    assert Roots(assets, ids) == {gpu};
    SumUpdate(map[], gpu, UnitsOf(assets[gpu]));
    assert Units(assets, ids) == map[][gpu := UnitsOf(assets[gpu])];
    SumOfNothing();
  }

  lemma SumOfNothing()
    ensures Sum(map[]) == 0
  {
  }

  // ---- replacement

  lemma RootsAfterReplacement(r: Registry, retired: AssetId, replacement: AssetId, id: AssetId)
    requires RegistryOk(r) && retired in r.assets && replacement !in r.assets && id in r.assets
    ensures var assets := ReplacedAssets(r.assets, retired, replacement);
      && ParentsOk(assets) && id in assets && replacement in assets
      && Root(assets, id) == Root(r.assets, id) && Root(assets, replacement) == replacement
  {
    ReplacedAssetsKeep(r, retired, replacement);
    hide KeysOk, AssignmentsOk, RightsOk, FamilyOk, EligibleOk;
    assert ParentOk(r.assets, r.assets[id]);
    if r.assets[id].parent.Some? {
      assert ParentOk(r.assets, r.assets[r.assets[id].parent.value]);
    }
  }

  lemma UnitsAfterReplacement(r: Registry, retired: AssetId, replacement: AssetId, ids: seq<AssetId>)
    requires RegistryOk(r) && retired in r.assets && r.assets[retired].active && replacement !in r.assets
    requires Known(r.assets, ids) && retired in ids
    ensures var assets := ReplacedAssets(r.assets, retired, replacement);
      && ParentsOk(assets) && Known(assets, ids + [replacement])
      && var moved := Units(r.assets, ids)[replacement := r.assets[retired].unitCount];
         Units(assets, ids + [replacement]) == if r.assets[retired].parent.None? then moved[retired := 0] else moved
  {
    assert ParentsOk(r.assets);
    hide RegistryOk, Root, ParentsOk;
    var assets, more := ReplacedAssets(r.assets, retired, replacement), ids + [replacement];
    RootsAfterReplacement(r, retired, replacement, retired);
    forall i | 0 <= i < |ids|
      ensures ids[i] in assets && Root(assets, ids[i]) == Root(r.assets, ids[i])
    {
      RootsAfterReplacement(r, retired, replacement, ids[i]);
    }
    assert more[..|ids|] == ids && more[..|ids| + 1] == more;
    RootsGrow(assets, more, |ids|);
    assert Roots(assets, ids) == Roots(r.assets, ids);
    RootIsItself(r.assets, retired);
    var i :| 0 <= i < |ids| && ids[i] == retired;
    assert Root(r.assets, ids[i]) in Roots(r.assets, ids);
    forall root | root in Roots(r.assets, ids)
      ensures r.assets[retired].parent.Some? ==> root != retired
    {
    }
  }

  lemma RootIsItself(assets: map<AssetId, Asset>, id: AssetId)
    requires ParentsOk(assets) && id in assets
    ensures Root(assets, id) == id <==> assets[id].parent.None?
  {
  }

  /** A replacement keeps what a listing is worth exactly when the asset replaced has no parent. A replaced partition
      loses its link to the GPU, so the same GPU then counts once more for it. */
  lemma ReplacementKeepsCollateral(r: Registry, retired: AssetId, replacement: AssetId, moved: seq<Key>,
                                   added: seq<Key>,
                                   role: Role, assignmentId: string, carry: bool, ids: seq<AssetId>)
    requires RegistryOk(r) && Known(r.assets, ids) && retired in ids
    requires ReplaceAsset(r, retired, replacement, moved, added, role, assignmentId, carry).1.Ok?
    ensures var after := ReplaceAsset(r, retired, replacement, moved, added, role, assignmentId, carry).0.assets;
      && ParentsOk(after) && Known(after, ids + [replacement])
      && (Sum(Units(after, ids + [replacement])) == Sum(Units(r.assets, ids)) <==> r.assets[retired].parent.None?)
  {
    ReplacementShape(r, retired, replacement, moved, added, role, assignmentId, carry);
    UnitsAfterReplacement(r, retired, replacement, ids);
    hide ReplaceAsset, Sum, ReplacedAssets;
    var units, n := Units(r.assets, ids), r.assets[retired].unitCount;
    assert replacement !in units;
    SumUpdate(units, replacement, n);
    SumUpdate(units[replacement := n], retired, 0);
    assert ParentOk(r.assets, r.assets[retired]);
    if r.assets[retired].parent.None? {
      RetiredWasListed(r.assets, ids, retired);
    }
  }

  lemma RetiredWasListed(assets: map<AssetId, Asset>, ids: seq<AssetId>, id: AssetId)
    requires ParentsOk(assets) && Known(assets, ids) && id in ids && assets[id].parent.None?
    ensures Get(Units(assets, ids), id) == UnitsOf(assets[id])
  {
    var i :| 0 <= i < |ids| && ids[i] == id;
    assert Root(assets, ids[i]) == id;
  }

  // ---- duplicate listings

  /** Registering a key that is active already creates nothing: the asset it names is flagged and no longer eligible. */
  lemma DuplicateListingCreatesNothing(r: Registry, id: AssetId, kind: AssetKind, unitCount: int, keys: seq<Key>,
                                       role: Role,
                                       account: Option<string>)
    requires RegistryOk(r) && MayRegister(role)
    requires exists i :: 0 <= i < |r.keys| && r.keys[i].active && r.keys[i].key in keys
    ensures var (after, result) := RegisterAsset(r, id, kind, unitCount, keys, role, account);
      && result.Ok? && result.value.Duplicate?
      && var existing := result.value.existing;
      && (exists i :: 0 <= i < |r.keys| && r.keys[i].active && r.keys[i].key in keys && r.keys[i].asset == existing)
      && after == RaiseFlag(r, existing, DuplicateListing)
      && after.assets.Keys == r.assets.Keys && !after.assets[existing].eligible
  {
    hide AssignmentsOk, RightsOk, ParentsOk, FamilyOk, EligibleOk, AssignProvider, AddKeys, DeriveId;
    var taken := FirstTaken(r.keys, keys);
    assert taken.Some?;
    assert r.keys[taken.value].asset in ActiveIds(r.assets);
  }
}
