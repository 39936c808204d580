/**
 The handlers of the web API over an in-memory document store. Each handler is
 a method of `Store` that answers with the response envelope; a handler that
 writes a `last_update` takes the current timestamp `now` (what `getNowDate`
 would return).
 An empty id names no document of this store. Afterwards the three
 collections hold the handler's eventual effect, every fire-and-forget write
 included. A query answers with a snapshot of ids in ascending order, and a
 `forEach` over it visits them in that order.
 */
module WebApi {
  import opened Tables
  import opened Snapshots

  /** The id `Device/GetAll` looks devices up by: the last user the email query returns, or "" when there is none. */
  ghost function OwnerByEmail(users: Users, email: string): (owner: string)
    ensures UsersWithEmail(users, email) == {} ==> owner == ""
    ensures UsersWithEmail(users, email) != {} ==>
      && owner in users && users[owner].email == email
      && forall k :: k in users && users[k].email == email && k != owner ==> Below(k, owner)
  {
    var matches := UsersWithEmail(users, email);
    if matches == {} then "" else Latest(matches)
  }

  class Store {
    /** The one-way password transform (MD5 in the deployed code), left uninterpreted. */
    const hash: string -> string

    var users: Users
    var devices: Devices
    var data: Readings

    /** The store never hands out the empty string as a document id. */
    ghost predicate Valid()
      reads this
    {
      "" !in users && "" !in devices && "" !in data
    }

    constructor (hash: string -> string)
      ensures Valid() && this.hash == hash
      ensures users == map[] && devices == map[] && data == map[]
    {
      this.hash := hash;
      users, devices, data := map[], map[], map[];
    }

    /** `User/Create`: refused when the email is already used, otherwise one user is added. */
    method CreateUser(name: string, email: string, password: string, now: string, newId: string)
      returns (res: Envelope)
      requires Valid()
      requires newId != "" && newId !in users
      modifies this
      ensures Valid() && devices == old(devices) && data == old(data)
      ensures UsersWithEmail(old(users), email) != {} ==>
        res == Envelope(400, "email address is already used", false) && users == old(users)
      ensures UsersWithEmail(old(users), email) == {} ==>
        res == Created && users == old(users)[newId := User(name, email, hash(password), now)]
    {
      var snapshot := UsersWithEmail(users, email);
      if snapshot != {} {
        return Envelope(400, "email address is already used", false);
      }
      users := users[newId := User(name, email, hash(password), now)];
      res := Created;
    }

    /** `Device/Create`: refused when the same user already has a device of that name. */
    method CreateDevice(name: string, status: bool, description: string, idUser: string, now: string, newId: string)
      returns (res: Envelope)
      requires Valid()
      requires newId != "" && newId !in devices
      modifies this
      ensures Valid() && users == old(users) && data == old(data)
      ensures DevicesNamed(old(devices), name, idUser) != {} ==>
        res == Envelope(400, "device name is already used", false) && devices == old(devices)
      ensures DevicesNamed(old(devices), name, idUser) == {} ==>
        res == Created && devices == old(devices)[newId := Device(name, status, description, idUser, now)]
    {
      var snapshot := DevicesNamed(devices, name, idUser);
      if snapshot != {} {
        return Envelope(400, "device name is already used", false);
      }
      devices := devices[newId := Device(name, status, description, idUser, now)];
      res := Created;
    }

    /** `Data/Create`: refused when the same device already has a reading of that name. */
    method CreateData(name: string, value: Value, idDevice: string, now: string, newId: string)
      returns (res: Envelope)
      requires Valid()
      requires newId != "" && newId !in data
      modifies this
      ensures Valid() && users == old(users) && devices == old(devices)
      ensures ReadingsNamed(old(data), name, idDevice) != {} ==>
        res == Envelope(400, "data name is already used", false) && data == old(data)
      ensures ReadingsNamed(old(data), name, idDevice) == {} ==>
        res == Created && data == old(data)[newId := Sensor(name, value, idDevice, now)]
    {
      var snapshot := ReadingsNamed(data, name, idDevice);
      if snapshot != {} {
        return Envelope(400, "data name is already used", false);
      }
      data := data[newId := Sensor(name, value, idDevice, now)];
      res := Created;
    }

    /**
     `Data/UpdateValue`. With an `id` (a non-empty one), that reading gets the
     value and the timestamp `now`, then its device gets the timestamp
     `deviceNow`. Without one, the reading is looked up by device and name, the
     last match is updated (nothing is when none matches), the named device gets
     `deviceNow`, and the answer is 204 either way. The clock is read once for
     each of the two writes, so the two timestamps are separate parameters.
     */
    method UpdateDataValue(id: string, idDevice: string, name: string, value: Value, now: string, deviceNow: string)
      returns (res: Envelope)
      requires Valid()
      modifies this
      ensures Valid() && users == old(users)
      ensures id != "" && id !in old(data) ==>
        && res == Envelope(400, "fail to update data, wrong parameters", false)
        && data == old(data) && devices == old(devices)
      ensures id != "" && id in old(data) ==>
        && res == Updated
        && data == old(data)[id := old(data)[id].(value := value, lastUpdate := now)]
        && devices == TouchDevice(old(devices), old(data)[id].idDevice, deviceNow)
      ensures id == "" ==> res == Updated && devices == TouchDevice(old(devices), idDevice, deviceNow)
      ensures id == "" ==>
        var matches := ReadingsNamed(old(data), name, idDevice);
        data == if matches == {} then old(data)
                else old(data)[Latest(matches) := old(data)[Latest(matches)].(value := value, lastUpdate := now)]
    {
      if id != "" {
        if id !in data {
          return Envelope(400, "fail to update data, wrong parameters", false);
        }
        data := data[id := data[id].(value := value, lastUpdate := now)];
        var owner := data[id].idDevice;
        if owner in devices {
          devices := devices[owner := devices[owner].(lastUpdate := deviceNow)];
        }
        return Updated;
      }
      ghost var matches := ReadingsNamed(data, name, idDevice);
      var snapshot := SortedIds(ReadingsNamed(data, name, idDevice));
      var dataId := "";
      for i := 0 to |snapshot|
        invariant dataId == if i == 0 then "" else snapshot[i - 1]
      {
        dataId := snapshot[i];
      }
      if snapshot != [] {
        LastOfAscending(snapshot, matches);
      }
      if dataId in data {
        data := data[dataId := data[dataId].(value := value, lastUpdate := now)];
      }
      if idDevice in devices {
        devices := devices[idDevice := devices[idDevice].(lastUpdate := deviceNow)];
      }
      res := Updated;
    }

    /** `User/UpdateValue` (the handler registered first): new name and email, no uniqueness check. */
    method UpdateUser(id: string, name: string, email: string, now: string) returns (res: Envelope)
      requires Valid()
      modifies this
      ensures Valid() && devices == old(devices) && data == old(data)
      ensures id !in old(users) ==>
        res == Envelope(400, "fail to update user data, wrong parameters", false) && users == old(users)
      ensures id in old(users) ==>
        res == Updated && users == old(users)[id := old(users)[id].(name := name, email := email, lastUpdate := now)]
    {
      if id !in users {
        return Envelope(400, "fail to update user data, wrong parameters", false);
      }
      users := users[id := users[id].(name := name, email := email, lastUpdate := now)];
      res := Updated;
    }

    /**
     The password-changing handler, registered second on `User/UpdateValue`:
     the stored hash is replaced only when it equals the hash of the old password.
     */
    method ChangePassword(id: string, oldPassword: string, newPassword: string, now: string) returns (res: Envelope)
      requires Valid()
      modifies this
      ensures Valid() && devices == old(devices) && data == old(data)
      ensures id !in old(users) ==> res == Envelope(400, "failed", false) && users == old(users)
      ensures id in old(users) && old(users)[id].password != hash(oldPassword) ==>
        res == Envelope(400, "old password not match", false) && users == old(users)
      ensures id in old(users) && old(users)[id].password == hash(oldPassword) ==>
        res == Updated && users == old(users)[id := old(users)[id].(password := hash(newPassword), lastUpdate := now)]
    {
      if id !in users {
        return Envelope(400, "failed", false);
      }
      if users[id].password != hash(oldPassword) {
        return Envelope(400, "old password not match", false);
      }
      users := users[id := users[id].(password := hash(newPassword), lastUpdate := now)];
      res := Updated;
    }

    /** `Device/UpdateValue`: new name, status and description; the owner is kept. */
    method UpdateDevice(id: string, name: string, status: bool, description: string, now: string)
      returns (res: Envelope)
      requires Valid()
      modifies this
      ensures Valid() && users == old(users) && data == old(data)
      ensures id !in old(devices) ==>
        res == Envelope(400, "fail to update device data, wrong parameters", false) && devices == old(devices)
      ensures id in old(devices) ==>
        && res == Updated
        && devices == old(devices)[id := old(devices)[id].(name := name, status := status,
                                                         description := description, lastUpdate := now)]
    {
      if id !in devices {
        return Envelope(400, "fail to update device data, wrong parameters", false);
      }
      devices := devices[id := devices[id].(name := name, status := status, description := description, lastUpdate := now)];
      res := Updated;
    }

    /** `Data/UpdateName`: renames a reading, without a uniqueness check and without touching its device. */
    method UpdateDataName(id: string, name: string, now: string) returns (res: Envelope)
      requires Valid()
      modifies this
      ensures Valid() && users == old(users) && devices == old(devices)
      ensures id !in old(data) ==>
        res == Envelope(400, "fail to update data name, wrong parameters", false) && data == old(data)
      ensures id in old(data) ==>
        res == Updated && data == old(data)[id := old(data)[id].(name := name, lastUpdate := now)]
    {
      if id !in data {
        return Envelope(400, "fail to update data name, wrong parameters", false);
      }
      data := data[id := data[id].(name := name, lastUpdate := now)];
      res := Updated;
    }

    /** `User/Delete`: removes the user row only; its devices and readings stay. */
    method DeleteUser(id: string) returns (res: Envelope)
      requires Valid()
      modifies this
      ensures Valid() && devices == old(devices) && data == old(data)
      ensures users == old(users) - {id} && res == Done
    {
      users := users - {id};
      res := Done;
    }

    /**
     `User/DeleteWithData`: for each device of the user, deletes each of its
     readings and then the device, and finally the user.
     */
    method DeleteUserWithData(id: string) returns (res: Envelope)
      requires Valid()
      modifies this
      ensures Valid()
      ensures users == old(users) - {id}
      ensures devices == old(devices) - DevicesOfUser(old(devices), id)
      ensures data == old(data) - ReadingsUnder(old(data), DevicesOfUser(old(devices), id))
      ensures res == Done
    {
      var owned := SortedIds(DevicesOfUser(devices, id));
      var i := 0;
      while i < |owned|
        invariant 0 <= i <= |owned|
        invariant Valid() && users == old(users)
        invariant devices == old(devices) - Elements(owned[..i])
        invariant data == old(data) - ReadingsUnder(old(data), Elements(owned[..i]))
      {
        var deviceId := owned[i];
        DeleteReadingsOf(deviceId);
        RemoveDeviceReadings(old(data), Elements(owned[..i]), deviceId);
        devices := devices - {deviceId};
        assert owned[..i + 1] == owned[..i] + [deviceId];
        i := i + 1;
      }
      assert owned[..i] == owned;
      users := users - {id};
      res := Done;
    }

    /** The inner `forEach` of `User/DeleteWithData`: deletes every reading of one device. */
    method DeleteReadingsOf(deviceId: string)
      requires Valid()
      modifies this
      ensures Valid() && users == old(users) && devices == old(devices)
      ensures data == old(data) - ReadingsOfDevice(old(data), deviceId)
    {
      var readings := SortedIds(ReadingsOfDevice(data, deviceId));
      var j := 0;
      while j < |readings|
        invariant 0 <= j <= |readings|
        invariant Valid() && users == old(users) && devices == old(devices)
        invariant data == old(data) - Elements(readings[..j])
      {
        var dataId := readings[j];
        data := data - {dataId};
        assert readings[..j + 1] == readings[..j] + [dataId];
        j := j + 1;
      }
      assert readings[..j] == readings;
      assert Elements(readings) == ReadingsOfDevice(old(data), deviceId);
    }

    /** `User/Login`: 200 exactly when some user has this email and the hash of this password; nothing is written. */
    method Login(email: string, password: string) returns (res: Envelope)
      ensures CanLogin(users, email, hash(password)) ==> res == Done
      ensures !CanLogin(users, email, hash(password)) ==> res == Envelope(400, "failed", false)
    {
      CredentialsQuery(users, email, hash(password));
      var snapshot := UsersWithCredentials(users, email, hash(password));
      if snapshot == {} {
        return Envelope(400, "failed", false);
      }
      res := Done;
    }

    /**
     `Data/GetAll`: the readings of a device, in snapshot order, or 404 and an
     empty list when it has none.
     */
    method GetAllData(idDevice: string) returns (res: Envelope, rows: seq<DataRow>)
      ensures ReadingsOfDevice(data, idDevice) == {} ==> res == Envelope(404, "no data is found", false) && rows == []
      ensures ReadingsOfDevice(data, idDevice) != {} ==> res == Done
      ensures forall i :: 0 <= i < |rows| ==>
        && rows[i].id in data && data[rows[i].id].idDevice == idDevice
        && rows[i] == RowOfReading(rows[i].id, data[rows[i].id])
      ensures forall i, j :: 0 <= i < j < |rows| ==> Below(rows[i].id, rows[j].id)
      ensures forall k :: k in data && data[k].idDevice == idDevice ==>
        exists i :: 0 <= i < |rows| && rows[i].id == k
    {
      var snapshot := SortedIds(ReadingsOfDevice(data, idDevice));
      assert forall k :: k in data && data[k].idDevice == idDevice ==> k in ReadingsOfDevice(data, idDevice);
      if snapshot == [] {
        return Envelope(404, "no data is found", false), [];
      }
      assert forall k :: 0 <= k < |snapshot| ==> snapshot[k] in ReadingsOfDevice(data, idDevice);
      rows := [];
      for i := 0 to |snapshot|
        invariant |rows| == i
        invariant forall k :: 0 <= k < i ==> rows[k] == RowOfReading(snapshot[k], data[snapshot[k]])
      {
        rows := rows + [RowOfReading(snapshot[i], data[snapshot[i]])];
      }
      forall k | k in data && data[k].idDevice == idDevice
        ensures exists i :: 0 <= i < |rows| && rows[i].id == k
      {
        assert k in snapshot;
        var i :| 0 <= i < |snapshot| && snapshot[i] == k;
        assert rows[i].id == k;
      }
      res := Done;
    }

    /**
     `Device/GetAll`: the devices of the user the email names (the last match
     of the email query; "" when no user has it), in snapshot order, or 404 and
     an empty list when there are none.
     */
    method GetAllDevices(email: string) returns (res: Envelope, rows: seq<DeviceRow>)
      ensures var owner := OwnerByEmail(users, email);
        && (DevicesOfUser(devices, owner) == {} ==> res == Envelope(404, "no device is found", false) && rows == [])
        && (DevicesOfUser(devices, owner) != {} ==> res == Done)
        && (forall i :: 0 <= i < |rows| ==>
              && rows[i].id in devices && devices[rows[i].id].idUser == owner
              && rows[i] == RowOfDevice(rows[i].id, devices[rows[i].id]))
        && (forall i, j :: 0 <= i < j < |rows| ==> Below(rows[i].id, rows[j].id))
        && (forall k :: k in devices && devices[k].idUser == owner ==>
              exists i :: 0 <= i < |rows| && rows[i].id == k)
    {
      var owners := SortedIds(UsersWithEmail(users, email));
      var idUser := "";
      for i := 0 to |owners|
        invariant idUser == if i == 0 then "" else owners[i - 1]
      {
        idUser := owners[i];
      }
      if owners != [] {
        LastOfAscending(owners, UsersWithEmail(users, email));
      }
      assert idUser == OwnerByEmail(users, email);
      var snapshot := SortedIds(DevicesOfUser(devices, idUser));
      assert forall k :: k in devices && devices[k].idUser == idUser ==> k in DevicesOfUser(devices, idUser);
      if snapshot == [] {
        return Envelope(404, "no device is found", false), [];
      }
      assert forall k :: 0 <= k < |snapshot| ==> snapshot[k] in DevicesOfUser(devices, idUser);
      rows := [];
      for i := 0 to |snapshot|
        invariant |rows| == i
        invariant forall k :: 0 <= k < i ==> rows[k] == RowOfDevice(snapshot[k], devices[snapshot[k]])
      {
        rows := rows + [RowOfDevice(snapshot[i], devices[snapshot[i]])];
      }
      forall k | k in devices && devices[k].idUser == idUser
        ensures exists i :: 0 <= i < |rows| && rows[i].id == k
      {
        assert k in snapshot;
        var i :| 0 <= i < |snapshot| && snapshot[i] == k;
        assert rows[i].id == k;
      }
      res := Done;
    }
  }

  /** The ids a snapshot lists. */
  ghost function Elements(ids: seq<string>): set<string>
  {
    set k | k in ids
  }

  /** Deleting one more device's readings extends the set of devices whose readings are gone. */
  lemma RemoveDeviceReadings(data: Readings, gone: set<string>, deviceId: string)
    ensures var rest := data - ReadingsUnder(data, gone);
      rest - ReadingsOfDevice(rest, deviceId) == data - ReadingsUnder(data, gone + {deviceId})
  {
  }
}
