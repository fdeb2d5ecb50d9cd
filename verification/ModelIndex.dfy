// The case-insensitive model index of model_reference_blockchain.py: what a refresh builds,
// which source it falls back to, and what is left behind when no source has models.

module ModelIndex {

  import opened Common

  type Name = string

  /** The baselines a model is offered under; Other is any text outside the accepted set. */
  datatype Baseline =
    | StableDiffusion1 | StableDiffusion2 | StableDiffusionXl | StableCascade | Flux1 | Flux2 | ZImageTurbo
    | Wan21 | Wan22 | LtxVideo | LtxVideo2 | CogVideo | Mochi | HunyuanVideo
    | Other(text: string)

  datatype Model = Model(baseline: Baseline, nsfw: bool, controlnet: bool, isControlnet: bool)

  datatype Entry = Entry(name: Name, model: Model)

  /** A dictionary in its own order. */
  type Models = seq<Entry>

  predicate Offered(e: Entry)
  {
    !e.model.baseline.Other?
  }

  // ---- the reference: a scan over the models -----------------------------------------

  ghost predicate Registered(models: Models, n: Name)
  {
    exists i :: 0 <= i < |models| && Offered(models[i]) && models[i].name == n
  }

  /** No offered model after this one has `k` for its lower-cased name. */
  ghost predicate NoneAfter(models: Models, lower: Name -> Name, k: Name, i: nat)
  {
    forall j :: i < j < |models| && !models[j].model.baseline.Other? ==> lower(models[j].name) != k
  }

  /** The last offered model whose lower-cased name is k. */
  ghost function LastMatch(models: Models, lower: Name -> Name, k: Name): (r: Option<Name>)
    ensures r.Some? ==> lower(r.value) == k && Registered(models, r.value)
    ensures r.Some? ==> exists i :: 0 <= i < |models| && models[i].name == r.value && NoneAfter(models, lower, k, i)
    ensures r.None? ==> forall i :: 0 <= i < |models| && Offered(models[i]) ==> lower(models[i].name) != k
  {
    if models == [] then
      None
    else
      var last := models[|models| - 1];
      if Offered(last) && lower(last.name) == k then
        assert Registered(models, last.name) && NoneAfter(models, lower, k, |models| - 1);
        Some(last.name)
      else
        var r := LastMatch(models[..|models| - 1], lower, k);
        if r.Some? then
          var i :| 0 <= i < |models| - 1 && Offered(models[..|models| - 1][i]) && models[..|models| - 1][i].name == r.value;
          assert Offered(models[i]) && models[i].name == r.value;
          var j: nat :| j < |models| - 1 && models[..|models| - 1][j].name == r.value
                        && NoneAfter(models[..|models| - 1], lower, k, j);
          assert models[j].name == r.value && NoneAfter(models, lower, k, j) by {
            assert forall x :: j < x < |models| - 1 ==> models[x] == models[..|models| - 1][x];
          }
          r
        else
          r
  }

  /** The name itself when it is a model's, otherwise the last model equal to it but for case. */
  ghost function Scan(models: Models, lower: Name -> Name, query: Name): Option<Name>
  {
    if Registered(models, query) then Some(query) else LastMatch(models, lower, lower(query))
  }

  function Find(lookup: map<Name, Name>, k: Name): Option<Name>
  {
    if k in lookup then Some(lookup[k]) else None
  }

  ghost predicate IsIndex(lookup: map<Name, Name>, models: Models, lower: Name -> Name)
  {
    forall k :: Find(lookup, k) == LastMatch(models, lower, k)
  }

  function NamesWhere(models: Models, p: Entry -> bool): set<Name>
  {
    set e | e in models && p(e) :: e.name
  }

  lemma NamesStep(models: Models, e: Entry, p: Entry -> bool)
    ensures NamesWhere(models + [e], p) == NamesWhere(models, p) + if p(e) then {e.name} else {}
  {
    var was, next := NamesWhere(models, p), NamesWhere(models + [e], p);
    forall n | n in next ensures n in was + if p(e) then {e.name} else {} {
      var x :| x in models + [e] && p(x) && x.name == n;
    }
    forall n | n in was ensures n in next {
      var x :| x in models && p(x) && x.name == n;
      assert x in models + [e];
    }
    if p(e) {
      assert e in models + [e];
    }
  }

  lemma IndexStep(lookup: map<Name, Name>, models: Models, e: Entry, lower: Name -> Name)
    requires IsIndex(lookup, models, lower)
    ensures IsIndex(if Offered(e) then lookup[lower(e.name) := e.name] else lookup, models + [e], lower)
  {
    var next := if Offered(e) then lookup[lower(e.name) := e.name] else lookup;
    assert (models + [e])[..|models|] == models;
    forall k ensures Find(next, k) == LastMatch(models + [e], lower, k) {
      assert Find(lookup, k) == LastMatch(models, lower, k);
    }
  }

  function Nsfw(e: Entry): bool { e.model.nsfw }

  function Controlnet(e: Entry): bool { e.model.controlnet || e.model.isControlnet }

  /** The models a refresh uses: the chain's, else the cached ones, else the legacy file's. */
  function Source(chain: Models, cached: Option<Models>, legacy: Models): Option<Models>
  {
    if chain != [] then Some(chain)
    else if cached.Some? && cached.value != [] then cached
    else if legacy != [] then Some(legacy)
    else None
  }

  // ---- the code ------------------------------------------------------------------------

  class ModelReference {
    const lower: Name -> Name
    var reference: Models
    var names: set<Name>
    var nsfw: set<Name>
    var controlnet: set<Name>
    var lookup: map<Name, Name>
    var cacheFile: Option<Models>
    ghost var loaded: Models // the models of the last refresh that had any

    /** The index is always that of the last models loaded; the names may be gone. */
    ghost predicate Valid()
      reads this
    {
      && IsIndex(lookup, loaded, lower)
      && nsfw == NamesWhere(loaded, Nsfw)
      && controlnet == NamesWhere(loaded, Controlnet)
      && ((reference == loaded && names == NamesWhere(loaded, Offered)) || (reference == [] && names == {}))
    }

    constructor (lower: Name -> Name, cacheFile: Option<Models>)
      ensures Valid() && reference == loaded == []
      ensures this.lower == lower && this.cacheFile == cacheFile
    {
      this.lower, this.cacheFile := lower, cacheFile;
      reference, names, nsfw, controlnet, lookup := [], {}, {}, {}, map[];
      loaded := [];
    }

    method Populate(models: Models)
      modifies this
      ensures Valid() && reference == loaded == models
      ensures cacheFile == old(cacheFile)
      ensures forall n :: n in names <==> exists e :: e in models && !e.model.baseline.Other? && e.name == n
      ensures forall n :: n in nsfw <==> exists e :: e in models && e.model.nsfw && e.name == n
      ensures forall n :: n in controlnet <==>
                exists e :: e in models && (e.model.controlnet || e.model.isControlnet) && e.name == n
    {
      reference := models;
      names, nsfw, controlnet, lookup := {}, {}, {}, map[];
      var i := 0;
      while i < |models|
        invariant 0 <= i <= |models|
        invariant reference == models && cacheFile == old(cacheFile)
        invariant names == NamesWhere(models[..i], Offered)
        invariant nsfw == NamesWhere(models[..i], Nsfw)
        invariant controlnet == NamesWhere(models[..i], Controlnet)
        invariant IsIndex(lookup, models[..i], lower)
      {
        var e := models[i];
        assert models[..i + 1] == models[..i] + [e];
        NamesStep(models[..i], e, Offered);
        NamesStep(models[..i], e, Nsfw);
        NamesStep(models[..i], e, Controlnet);
        IndexStep(lookup, models[..i], e, lower);
        i := i + 1;
        if Offered(e) {
          names := names + {e.name};
          lookup := lookup[lower(e.name) := e.name];
        }
        assert NamesWhere(models[..i], Offered) == names && IsIndex(lookup, models[..i], lower);
        if Nsfw(e) {
          nsfw := nsfw + {e.name};
        }
        assert NamesWhere(models[..i], Nsfw) == nsfw;
        if Controlnet(e) {
          controlnet := controlnet + {e.name};
        }
      }
      loaded := models;
      assert models[..|models|] == models;
    }

    /** call_function for the image models; saved and readable tell whether the cache file could be
        written and read. */
    method Refresh(chain: Models, saved: bool, readable: bool, legacy: Models)
      requires Valid()
      modifies this
      ensures Valid()
      ensures cacheFile == if chain != [] && saved then Some(chain) else old(cacheFile)
      ensures var source := Source(chain, if readable then old(cacheFile) else None, legacy);
        if source.Some?
        then reference == loaded == source.value
        else reference == [] && names == {} && loaded == old(loaded)
      ensures chain != [] ==> reference == chain
      ensures chain == [] && readable && old(cacheFile).Some? && old(cacheFile).value != [] ==>
                reference == old(cacheFile).value
      ensures chain == [] && (!readable || old(cacheFile).None? || old(cacheFile).value == []) ==> reference == legacy
      ensures reference != [] ==>
                && loaded == reference
                && (forall n :: n in names <==> exists e :: e in reference && !e.model.baseline.Other? && e.name == n)
    {
      if chain != [] {
        if saved {
          cacheFile := Some(chain);
        }
        Populate(chain);
      } else {
        var cached := if readable then cacheFile else None;
        if cached.Some? && cached.value != [] {
          Populate(cached.value);
        } else if legacy != [] {
          Populate(legacy);
        } else {
          reference := [];
          names := {};
        }
      }
    }

    function Normalize(query: Name): Option<Name>
      reads this
    {
      if query in names then Some(query) else Find(lookup, lower(query))
    }

    predicate Known(query: Name)
      reads this
    {
      Normalize(query).Some?
    }

    method HasUnknown(queries: seq<Name>) returns (unknown: bool)
      ensures unknown <==> exists i :: 0 <= i < |queries| && !Known(queries[i])
    {
      unknown := false;
      var i := 0;
      while i < |queries| && !unknown
        invariant 0 <= i <= |queries|
        invariant unknown <==> exists j :: 0 <= j < i && !Known(queries[j])
      {
        unknown := !Known(queries[i]);
        i := i + 1;
      }
    }

    lemma NamesAreRegistered(query: Name)
      requires Valid() && reference == loaded
      ensures query in names <==> Registered(loaded, query)
    {
      if query in names {
        var e :| e in loaded && Offered(e) && e.name == query;
        var i :| 0 <= i < |loaded| && loaded[i] == e;
      }
      if Registered(loaded, query) {
        var i :| 0 <= i < |loaded| && Offered(loaded[i]) && loaded[i].name == query;
        assert loaded[i] in loaded;
      }
    }

    /** Whenever the reference is the one last loaded, the index answers as the scan does. */
    lemma AgreesWithScan(query: Name)
      requires Valid() && reference == loaded
      ensures Normalize(query) == Scan(reference, lower, query)
      ensures Known(query) <==> exists i :: 0 <= i < |reference| && Offered(reference[i])
                                  && lower(reference[i].name) == lower(query)
    {
      NamesAreRegistered(query);
      var r := LastMatch(loaded, lower, lower(query));
      assert Find(lookup, lower(query)) == r;
      if r.Some? {
        var i :| 0 <= i < |loaded| && Offered(loaded[i]) && loaded[i].name == r.value;
      }
    }

    /** A name already normalized stays as it is. */
    lemma NormalizeTwice(query: Name)
      requires Valid() && Known(query)
      requires reference == loaded
      ensures Normalize(Normalize(query).value) == Normalize(query)
    {
      AgreesWithScan(query);
      NamesAreRegistered(Normalize(query).value);
    }

    /** After a refresh that found nothing: the reference is empty, and yet a name is known exactly when
        a model of the last load matched it. The names agree with the reference only if that load
        offered no model. */
    lemma StaleWhenNothingLoads(query: Name)
      requires Valid() && reference == [] && names == {}
      ensures Normalize(query) == LastMatch(loaded, lower, lower(query))
      ensures (forall q :: Normalize(q) == Scan(reference, lower, q))
              <==> (forall i :: 0 <= i < |loaded| ==> !Offered(loaded[i]))
    {
      assert Find(lookup, lower(query)) == LastMatch(loaded, lower, lower(query));
      forall q ensures Scan(reference, lower, q) == None {}
      if forall q :: Normalize(q) == Scan(reference, lower, q) {
        forall i | 0 <= i < |loaded| ensures !Offered(loaded[i]) {
          var n := loaded[i].name;
          assert Normalize(n) == None;
          assert Find(lookup, lower(n)) == LastMatch(loaded, lower, lower(n));
        }
      }
      if forall i :: 0 <= i < |loaded| ==> !Offered(loaded[i]) {
        forall q ensures Normalize(q) == None {
          var r := LastMatch(loaded, lower, lower(q));
          assert Find(lookup, lower(q)) == r;
          assert r.Some? ==> Registered(loaded, r.value);
        }
      }
    }
  }
}
