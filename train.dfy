/** Trains and their vehicle classes (src/train.rs). */
module Trains {
  import opened Ids

  /** The three vehicle classes a train or a platform can have. */
  datatype TrainType = LowSpeed | Freight | HighSpeed

  datatype Train = Train(id: u16, model: string, dirForward: bool, trainType: TrainType)

  /** `Train::new`: bumps the caller's `u16` counter and takes the new value as
      the id. As written it ignores `model`, `dirForward` and `trainType`: every
      train is a forward-facing low-speed "Passenger" train. */
  method NewTrain(id: u16, model: string, dirForward: bool, trainType: TrainType)
    returns (train: Train, id': u16)
    ensures id' == Inc16(id)
    ensures train.id == id'
    ensures train.model == "Passenger"
    ensures train.dirForward && train.trainType == LowSpeed
  {
    id' := Inc16(id);
    train := Train(id', "Passenger", true, LowSpeed);
  }

  /** Two trains drawn one after the other from the same counter get
      consecutive ids and are otherwise identical, whatever was asked for. */
  method TwoTrains(id: u16, m1: string, m2: string, t1: TrainType, t2: TrainType)
    returns (a: Train, b: Train, id': u16)
    requires id + 2 <= U16_MAX
    ensures a.id == id + 1 && b.id == id + 2 && id' == id + 2
    ensures a.(id := b.id) == b
  {
    var mid;
    a, mid := NewTrain(id, m1, true, t1);
    b, id' := NewTrain(mid, m2, false, t2);
  }
}
