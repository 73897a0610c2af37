/** A bookable slot at a station (src/station/platform.rs). */
module Platforms {
  import opened Ids
  import opened Trains

  /** Equality is field-wise over id, occupancy and type, as the derived
      `PartialEq` of the Rust struct. */
  datatype Platform = Platform(id: u8, occupied: bool, platformType: TrainType)

  /** `Platform::new`: a free platform with the given id and type. */
  function NewPlatform(id: u8, platformType: TrainType): (p: Platform)
    ensures p.id == id
    ensures !p.occupied
    ensures p.platformType == platformType
  {
    Platform(id, false, platformType)
  }
}
