/** A whole volume at rest: what a device must hold for a writer to be opened on it. */
module VolumeImage {
  import opened Types
  import opened Bitmap
  import opened Ownership
  import opened Table
  import opened Layout
  import opened Steps

  /** Device, root cluster and sectors hold exactly the volume `o`, whose bitmap blocks are `bm` and
      whose anode blocks are `abk`, the first missing sequence number being `miss`. */
  ghost predicate Image(g: Geo, dev: Store, root: Root, sect: Sectors, bm: seq<BmBlock>, abk: Link, miss: nat, o: Own) {
    && GeoOk(g) && SnapOk(g, Snap(dev, abk, o.f, o.sys, bm, root.res)) && g.dataEnd <= Base(g, |bm|) && Nonzero(bm)
    && CommOk(g, dev, o.f, abk, miss) && Extends(abk, abk, miss) && o.fl == {}
    && root.blocksFree == |o.f.free| && root.reservedFree == |o.f.resFree| && Inv(g, o, sect)
  }
}
