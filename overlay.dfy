/** The overlay filesystem's lower directories and option string, derived
    from the manifest's layers. Layers are listed base-first; overlay
    gives the first lower directory the highest priority, so the list is
    reversed. */
module Overlay {
  import opened Descriptors
  import opened GoStrings

  /** Where the image puller extracts each layer, named by its digest. */
  const LayerRoot: string := "/tmp/proxy_pool/layers"

  /** `strings.Split(digest, ":")[1]`: the field between the first and the
      second `:`. Only digests that contain a `:` have one; on any other
      the index panics. */
  function DigestHex(digest: string): (hex: string)
    requires ':' in digest
    ensures ':' !in hex
  {
    SplitPartsFree(digest, ':');
    Split(digest, ':')[1]
  }

  /** The cache directory a layer is mounted from. */
  function LayerPath(layer: Layer): string
    requires ':' in layer.digest
  {
    LayerRoot + "/" + DigestHex(layer.digest)
  }

  /** Every digest has the field the derivation indexes. */
  predicate WellFormed(layers: seq<Layer>)
  {
    forall i :: 0 <= i < |layers| ==> ':' in layers[i].digest
  }

  /** The lower directories: the layer paths, topmost layer first. */
  function LowerDirs(layers: seq<Layer>): (dirs: seq<string>)
    requires WellFormed(layers)
    ensures |dirs| == |layers|
    decreases |layers|
  {
    if layers == [] then []
    else LowerDirs(layers[1..]) + [LayerPath(layers[0])]
  }

  /** The `-o` argument of the overlay mount. */
  function OverlayOptions(lowerDirs: seq<string>, upperDir: string, workDir: string): string
  {
    "lowerdir=" + Join(lowerDirs, ':') + ",upperdir=" + upperDir + ",workdir=" + workDir
  }

  /** A digest of the form `algorithm:encoded` names its `encoded` part. */
  lemma DigestHexOfDescriptor(algorithm: string, encoded: string)
    requires ':' !in algorithm && ':' !in encoded
    ensures ':' in algorithm + ":" + encoded
    ensures DigestHex(algorithm + ":" + encoded) == encoded
  {
    assert Join([algorithm, encoded], ':') == algorithm + ":" + encoded;
    SplitJoin([algorithm, encoded], ':');
  }

  /** For any digest with a `:`, the field is what lies between the first
      `:` and the next `:`, or the end when there is no second `:`. */
  lemma DigestHexIsSecondField(digest: string)
    requires ':' in digest
    ensures var after := digest[IndexOf(digest, ':') + 1..];
      DigestHex(digest) == if ':' in after then after[..IndexOf(after, ':')] else after
  {
    var after := digest[IndexOf(digest, ':') + 1..];
    SplitUnfold(digest, ':');
    assert Split(digest, ':')[1] == Split(after, ':')[0];
    if ':' in after {
      SplitUnfold(after, ':');
    }
  }

  /** Lower directory `i` is the path of layer `n - 1 - i`: one entry per
      layer, in reverse manifest order. */
  lemma {:induction false} LowerDirsAt(layers: seq<Layer>, i: nat)
    requires WellFormed(layers) && i < |layers|
    ensures LowerDirs(layers)[i] == LayerPath(layers[|layers| - 1 - i])
    decreases |layers|
  {
    if i < |layers| - 1 {
      LowerDirsAt(layers[1..], i);
    }
  }

  /** The layer cache root contains no `:`. */
  lemma LayerRootColonFree()
    ensures ':' !in LayerRoot + "/"
  {
    var r := LayerRoot + "/";
    assert r == "/tmp/proxy_pool/layers/";
    forall i | 0 <= i < |r| ensures r[i] != ':' {
    }
  }

  /** No layer path contains the `:` that joins lower directories. */
  lemma LayerPathColonFree(layer: Layer)
    requires ':' in layer.digest
    ensures ':' !in LayerPath(layer)
  {
    LayerRootColonFree();
    var r, h := LayerRoot + "/", DigestHex(layer.digest);
    assert LayerPath(layer) == r + h;
    forall i | 0 <= i < |r + h| ensures (r + h)[i] != ':' {
      if i < |r| { assert (r + h)[i] == r[i]; } else { assert (r + h)[i] == h[i - |r|]; }
    }
  }

  /** No lower directory contains the `:` that joins them. */
  lemma {:induction false} LowerDirsColonFree(layers: seq<Layer>)
    requires WellFormed(layers)
    ensures forall i :: 0 <= i < |LowerDirs(layers)| ==> ':' !in LowerDirs(layers)[i]
    decreases |layers|
  {
    if layers != [] {
      LowerDirsColonFree(layers[1..]);
      LayerPathColonFree(layers[0]);
    }
  }

  /** The `lowerdir=` value of a non-empty image splits back into exactly
      the lower directories: joining with `:` loses nothing. */
  lemma LowerDirsRoundTrip(layers: seq<Layer>)
    requires WellFormed(layers) && layers != []
    ensures Split(Join(LowerDirs(layers), ':'), ':') == LowerDirs(layers)
  {
    LowerDirsColonFree(layers);
    SplitJoin(LowerDirs(layers), ':');
  }

  /** The descending loop of `setLayers`: append the path of each layer
      from the last to the first; a digest without `:` stops it (where the
      program panics). */
  method CollectLowerDirs(layers: seq<Layer>) returns (dirs: Option<seq<string>>)
    ensures dirs.Some? <==> WellFormed(layers)
    ensures dirs.Some? ==> dirs.value == LowerDirs(layers)
  {
    var lower: seq<string> := [];
    var i: int := |layers| - 1;
    while i >= 0
      invariant -1 <= i < |layers|
      invariant WellFormed(layers[i + 1..])
      invariant lower == LowerDirs(layers[i + 1..])
    {
      if ':' !in layers[i].digest {
        return None;
      }
      assert layers[i..][1..] == layers[i + 1..];
      lower := lower + [LayerPath(layers[i])];
      i := i - 1;
    }
    assert layers[0..] == layers;
    return Some(lower);
  }
}
