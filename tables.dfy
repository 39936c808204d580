/**
 The three collections of the web API and their records. The `user`, `device`
 and `data` collections are maps from document id to record; a device points to
 its owner through `idUser` (`id_user`), a sensor-data record to its device
 through `idDevice` (`id_device`). Nothing but these back-references links them.
 */
module Tables {

  /** The untyped `value` of a sensor-data record when it is a JSON scalar, carried through unexamined. */
  datatype Value = Num(x: real) | Text(s: string) | Flag(b: bool) | Null

  /** `UserData`; `password` holds the hash of the password, never the password. */
  datatype User = User(name: string, email: string, password: string, lastUpdate: string)

  /** `DeviceData`. */
  datatype Device = Device(name: string, status: bool, description: string, idUser: string, lastUpdate: string)

  /** `SensorData`, a document of the `data` collection. */
  datatype Sensor = Sensor(name: string, value: Value, idDevice: string, lastUpdate: string)

  type Users = map<string, User>
  type Devices = map<string, Device>
  type Readings = map<string, Sensor>

  /** The response envelope: `code`, `msg` and `success` (the `result` payload is not modelled). */
  datatype Envelope = Envelope(code: int, msg: string, success: bool)

  /** One entry of the list `Device/GetAll` answers with (the owner is not echoed). */
  datatype DeviceRow = DeviceRow(id: string, name: string, status: bool, description: string, lastUpdate: string)

  /** One entry of the list `Data/GetAll` answers with (the device is not echoed). */
  datatype DataRow = DataRow(id: string, name: string, value: Value, lastUpdate: string)

  function RowOfDevice(id: string, d: Device): DeviceRow
  {
    DeviceRow(id, d.name, d.status, d.description, d.lastUpdate)
  }

  function RowOfReading(id: string, r: Sensor): DataRow
  {
    DataRow(id, r.name, r.value, r.lastUpdate)
  }

  const Created := Envelope(201, "success", true)
  const Updated := Envelope(204, "success", true)
  const Done := Envelope(200, "success", true)

  // The equality queries the handlers issue, as the sets of ids they match.

  function UsersWithEmail(users: Users, email: string): set<string>
  {
    set id | id in users && users[id].email == email
  }

  function UsersWithCredentials(users: Users, email: string, passwordHash: string): set<string>
  {
    set id | id in users && users[id].email == email && users[id].password == passwordHash
  }

  function DevicesNamed(devices: Devices, name: string, idUser: string): set<string>
  {
    set id | id in devices && devices[id].name == name && devices[id].idUser == idUser
  }

  function DevicesOfUser(devices: Devices, idUser: string): set<string>
  {
    set id | id in devices && devices[id].idUser == idUser
  }

  function ReadingsNamed(data: Readings, name: string, idDevice: string): set<string>
  {
    set id | id in data && data[id].name == name && data[id].idDevice == idDevice
  }

  function ReadingsOfDevice(data: Readings, idDevice: string): set<string>
  {
    set id | id in data && data[id].idDevice == idDevice
  }

  /** The readings whose device is one of `deviceIds`. */
  function ReadingsUnder(data: Readings, deviceIds: set<string>): set<string>
  {
    set id | id in data && data[id].idDevice in deviceIds
  }

  /** An update of `last_update` on a device document; an update of a missing document changes nothing. */
  function TouchDevice(devices: Devices, id: string, now: string): Devices
  {
    if id in devices then devices[id := devices[id].(lastUpdate := now)] else devices
  }

  // The uniqueness rules the create handlers enforce.

  ghost predicate EmailsUnique(users: Users)
  {
    forall a, b :: a in users && b in users && users[a].email == users[b].email ==> a == b
  }

  ghost predicate DeviceNamesUnique(devices: Devices)
  {
    forall a, b ::
      (a in devices && b in devices && devices[a].name == devices[b].name && devices[a].idUser == devices[b].idUser)
      ==> a == b
  }

  ghost predicate ReadingNamesUnique(data: Readings)
  {
    forall a, b ::
      (a in data && b in data && data[a].name == data[b].name && data[a].idDevice == data[b].idDevice)
      ==> a == b
  }

  /** Some user has this email and this password hash: the condition for a successful login. */
  ghost predicate CanLogin(users: Users, email: string, passwordHash: string)
  {
    exists id :: id in users && users[id].email == email && users[id].password == passwordHash
  }

  /** The login query finds a document exactly when some user has these credentials. */
  lemma CredentialsQuery(users: Users, email: string, passwordHash: string)
    ensures CanLogin(users, email, passwordHash) <==> UsersWithCredentials(users, email, passwordHash) != {}
  {
    if CanLogin(users, email, passwordHash) {
      var id :| id in users && users[id].email == email && users[id].password == passwordHash;
      assert id in UsersWithCredentials(users, email, passwordHash);
    }
  }
}
