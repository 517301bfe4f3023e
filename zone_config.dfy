/**
 * The zone file: the record the zone-definition script saves and both detection
 * loops load (reference frame size plus the name-to-vertices map), with JSON
 * encoding and the file system abstracted away.
 */
module ZoneConfig {
  import opened Wrappers
  import opened Geometry

  /** `{"source_image_width": ..., "source_image_height": ..., "zones": {name: [[x, y], ...]}}` */
  datatype ZoneFile = ZoneFile(sourceImageWidth: int, sourceImageHeight: int, zones: seq<Zone>)

  /** What loading returns: the zones and the reference frame's width and height. */
  datatype Loaded = Loaded(zones: seq<Zone>, width: int, height: int)

  /** The record `main` saves; nothing is saved when no zone was defined. */
  function SaveZones(zones: seq<Zone>, width: int, height: int): (r: Option<ZoneFile>)
    ensures r.None? <==> |zones| == 0
    ensures r.Some? ==>
      r.value.zones == zones && r.value.sourceImageWidth == width && r.value.sourceImageHeight == height
  {
    if |zones| == 0 then None else Some(ZoneFile(width, height, zones))
  }

  /** `load_zones`: a missing file is an error (None); otherwise its three fields. */
  function LoadZones(file: Option<ZoneFile>): (r: Option<Loaded>)
    ensures r.None? <==> file.None?
    ensures r.Some? ==>
      && r.value.zones == file.value.zones
      && r.value.width == file.value.sourceImageWidth
      && r.value.height == file.value.sourceImageHeight
  {
    match file
    case None => None
    case Some(f) => Some(Loaded(f.zones, f.sourceImageWidth, f.sourceImageHeight))
  }

  /** Whatever the script saves, the detection loop loads back unchanged. */
  lemma SaveThenLoad(zones: seq<Zone>, width: int, height: int)
    requires |zones| > 0
    ensures LoadZones(SaveZones(zones, width, height)) == Some(Loaded(zones, width, height))
  {
  }
}
