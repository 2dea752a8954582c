/**
  The chunks to start loading while the new-session page is parsed: everything the chunks of the
  entry modules import, directly or not.  Chunks may import each other in cycles.
 */
module Preload {
  import opened Reachability

  datatype Output = Chunk(imports: seq<string>, modules: set<string>) | Asset

  /** The outputs by file name, and the order in which they are listed. */
  datatype Bundle = Bundle(outputs: map<string, Output>, order: seq<string>) {
    predicate IsChunk(file: string) {
      file in outputs && outputs[file].Chunk?
    }

    function Chunks(): set<string> {
      set file | file in outputs && outputs[file].Chunk?
    }

    predicate Holds(file: string, id: string) {
      IsChunk(file) && id in outputs[file].modules
    }

    /** `to` is a chunk that the chunk `from` imports. */
    predicate Edge(from: string, to: string) {
      IsChunk(from) && IsChunk(to) && to in outputs[from].imports
    }

    ghost function Imports(): Edges {
      iset from, to | Edge(from, to) :: (from, to)
    }
  }

  datatype Result<+T> = Ok(value: T) | NoChunk(id: string)

  function Elements(s: seq<string>): set<string> {
    set x | x in s
  }

  ghost predicate NoDuplicates(s: seq<string>) {
    forall i, j :: 0 <= i < j < |s| ==> s[i] != s[j]
  }

  /** The list is exactly what is reachable, each file once. */
  ghost predicate IsClosure(bundle: Bundle, roots: set<string>, files: seq<string>) {
    && NoDuplicates(files)
    && (forall file :: file in files <==> Reachable(bundle.Imports(), roots, file))
  }

  lemma PrefixElements(a: seq<string>, b: seq<string>)
    requires a <= b
    ensures Elements(a) <= Elements(b)
  {
  }

  /** The set of files shared by all visits. */
  class Visitor {
    const bundle: Bundle
    var files: seq<string>

    constructor (bundle: Bundle)
      ensures this.bundle == bundle && files == []
    {
      this.bundle := bundle;
      files := [];
    }

    ghost predicate Valid(roots: set<string>)
      reads this
    {
      NoDuplicates(files) && forall f :: f in files ==> bundle.IsChunk(f) && Reachable(bundle.Imports(), roots, f)
    }

    /**
      What a visit leaves: the old list is a prefix of the new one, and whatever was added has all
      the chunks it imports in the list.
     */
    ghost predicate Extends(before: seq<string>)
      reads this
    {
      before <= files && Closed(bundle.Imports(), Elements(files) - Elements(before), Elements(files))
    }

    method Visit(file: string, ghost roots: set<string>)
      requires Valid(roots) && (bundle.IsChunk(file) ==> Reachable(bundle.Imports(), roots, file))
      modifies this
      ensures Valid(roots) && Extends(old(files)) && (bundle.IsChunk(file) ==> file in files)
      decreases bundle.Chunks() - Elements(files)
    {
      if file in files || !bundle.IsChunk(file) {
        return;
      }
      ghost var before := files;
      files := files + [file];
      ghost var started := files;
      var imports := bundle.outputs[file].imports;
      var i := 0;
      while i < |imports|
        invariant 0 <= i <= |imports|
        invariant Valid(roots) && Extends(started) && file in files
        invariant forall k :: 0 <= k < i && bundle.IsChunk(imports[k]) ==> imports[k] in files
      {
        if bundle.IsChunk(imports[i]) {
          EdgeIsReachable(bundle.Imports(), roots, file, imports[i]);
        }
        PrefixElements(started, files);
        assert file in Elements(files) && file !in Elements(before);
        ghost var previous := files;
        Visit(imports[i], roots);
        PrefixElements(previous, files);
        i := i + 1;
      }
      PrefixElements(started, files);
    }
  }

  /** The first listed chunk that holds the module. */
  method FindChunk(bundle: Bundle, id: string) returns (found: Result<string>)
    ensures found.Ok? ==> bundle.Holds(found.value, id) && found.value in bundle.order
    ensures found.NoChunk? ==> found.id == id && forall file :: file in bundle.order ==> !bundle.Holds(file, id)
  {
    for i := 0 to |bundle.order|
      invariant forall k :: 0 <= k < i ==> !bundle.Holds(bundle.order[k], id)
    {
      if bundle.Holds(bundle.order[i], id) {
        return Ok(bundle.order[i]);
      }
    }
    found := NoChunk(id);
  }

  /** The files to preload for the given entry modules, or the first module no chunk holds. */
  method PreloadList(bundle: Bundle, modules: seq<string>) returns (files: Result<seq<string>>, ghost roots: seq<string>)
    ensures files.Ok? ==>
              && |roots| == |modules| && (forall k :: 0 <= k < |modules| ==> bundle.Holds(roots[k], modules[k]))
              && IsClosure(bundle, Elements(roots), files.value)
    ensures files.NoChunk? ==>
              files.id in modules && forall file :: file in bundle.order ==> !bundle.Holds(file, files.id)
  {
    var visitor := new Visitor(bundle);
    roots := [];
    for i := 0 to |modules|
      invariant visitor.bundle == bundle && visitor.Valid(Elements(roots))
      invariant |roots| == i && forall k :: 0 <= k < i ==> bundle.Holds(roots[k], modules[k])
      invariant Elements(roots) <= Elements(visitor.files)
      invariant Closed(bundle.Imports(), Elements(visitor.files), Elements(visitor.files))
    {
      var chunk := FindChunk(bundle, modules[i]);
      if chunk.NoChunk? {
        return NoChunk(chunk.id), roots;
      }
      MoreRoots(bundle, roots, chunk.value);
      roots := roots + [chunk.value];
      RootIsReachable(bundle.Imports(), Elements(roots), chunk.value);
      ghost var previous := visitor.files;
      visitor.Visit(chunk.value, Elements(roots));
      PrefixElements(previous, visitor.files);
    }
    ClosedHoldsReachable(bundle.Imports(), Elements(roots), Elements(visitor.files));
    files := Ok(visitor.files);
  }

  lemma MoreRoots(bundle: Bundle, roots: seq<string>, root: string)
    ensures Elements(roots) <= Elements(roots + [root])
    ensures forall file ::
              Reachable(bundle.Imports(), Elements(roots), file) ==> Reachable(bundle.Imports(), Elements(roots + [root]), file)
  {
    forall file | Reachable(bundle.Imports(), Elements(roots), file)
      ensures Reachable(bundle.Imports(), Elements(roots + [root]), file)
    {
      MoreRootsReachMore(bundle.Imports(), Elements(roots), Elements(roots + [root]), file);
    }
  }
}
