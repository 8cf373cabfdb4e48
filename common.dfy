/** Values shared by every component of the NearLink mesh model: nullable
    references, bytes, position fixes and discovered-peer records. */
module Common {

  /** A Java reference that may be null. */
  datatype Option<T> = None | Some(value: T)

  /** One byte of a serialized frame. */
  newtype byte = b: int | 0 <= b < 256

  type Bytes = seq<byte>

  /** `Long.MAX_VALUE`, the sentinel the relay engine starts its running minimum from. */
  const LONG_MAX: int := 0x7FFF_FFFF_FFFF_FFFF

  /** An `android.location.Location` as the core uses it: coordinates in
      degrees, an optional accuracy radius in metres, an optional speed in
      metres per second, and the fix time in milliseconds. Doubles and floats
      are modelled as reals. */
  datatype Location = Location(
    latitude: real,
    longitude: real,
    accuracy: Option<real>,
    speed: Option<real>,
    time: int)

  /** `BluetoothService.DeviceInfo`: a peer seen during discovery. */
  datatype DeviceInfo = DeviceInfo(address: string, name: string, lastSeen: int)
}
