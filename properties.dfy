/**
 What the handlers promise together: the uniqueness rules the creates keep,
 what a password change means for a later login, what the cascading delete
 leaves behind, and sample request sequences replayed against a
 fresh store. The hash is a parameter throughout, so nothing here depends on
 which one-way transform the deployment uses.
 */
module Properties {
  import opened Tables
  import opened Snapshots
  import opened WebApi

  // Uniqueness on create

  /** The email query of `User/Create` finds something exactly when some user already has the email. */
  lemma EmailConflictIff(users: Users, email: string)
    ensures UsersWithEmail(users, email) != {} <==> exists k :: k in users && users[k].email == email
  {
    if exists k :: k in users && users[k].email == email {
      var k :| k in users && users[k].email == email;
      assert k in UsersWithEmail(users, email);
    }
  }

  /** A device name conflicts only with a device of the same user: the same name under another user is accepted. */
  lemma DeviceConflictIff(devices: Devices, name: string, idUser: string)
    ensures DevicesNamed(devices, name, idUser) != {} <==>
      exists k :: k in devices && devices[k].name == name && devices[k].idUser == idUser
  {
    if exists k :: k in devices && devices[k].name == name && devices[k].idUser == idUser {
      var k :| k in devices && devices[k].name == name && devices[k].idUser == idUser;
      assert k in DevicesNamed(devices, name, idUser);
    }
  }

  /** A reading name conflicts only with a reading of the same device. */
  lemma ReadingConflictIff(data: Readings, name: string, idDevice: string)
    ensures ReadingsNamed(data, name, idDevice) != {} <==>
      exists k :: k in data && data[k].name == name && data[k].idDevice == idDevice
  {
    if exists k :: k in data && data[k].name == name && data[k].idDevice == idDevice {
      var k :| k in data && data[k].name == name && data[k].idDevice == idDevice;
      assert k in ReadingsNamed(data, name, idDevice);
    }
  }

  lemma CreateUserKeepsEmailsUnique(users: Users, newId: string, u: User)
    requires EmailsUnique(users) && newId !in users
    requires UsersWithEmail(users, u.email) == {}
    ensures EmailsUnique(users[newId := u])
  {
    forall k | k in users
      ensures users[k].email != u.email
    {
      assert k !in UsersWithEmail(users, u.email);
    }
  }

  lemma CreateDeviceKeepsNamesUnique(devices: Devices, newId: string, d: Device)
    requires DeviceNamesUnique(devices) && newId !in devices
    requires DevicesNamed(devices, d.name, d.idUser) == {}
    ensures DeviceNamesUnique(devices[newId := d])
  {
    forall k | k in devices
      ensures devices[k].name != d.name || devices[k].idUser != d.idUser
    {
      assert k !in DevicesNamed(devices, d.name, d.idUser);
    }
  }

  lemma CreateDataKeepsNamesUnique(data: Readings, newId: string, r: Sensor)
    requires ReadingNamesUnique(data) && newId !in data
    requires ReadingsNamed(data, r.name, r.idDevice) == {}
    ensures ReadingNamesUnique(data[newId := r])
  {
    forall k | k in data
      ensures data[k].name != r.name || data[k].idDevice != r.idDevice
    {
      assert k !in ReadingsNamed(data, r.name, r.idDevice);
    }
  }

  /** `User/UpdateValue` checks nothing, so it can give a second user an email that is already used. */
  lemma UpdateUserCanDuplicateEmail()
    ensures var users := map["u1" := User("A", "a@x.com", "h1", "t0"), "u2" := User("B", "b@x.com", "h2", "t0")];
      && EmailsUnique(users)
      && !EmailsUnique(users["u2" := users["u2"].(email := "a@x.com", lastUpdate := "t1")])
  {
    var users := map["u1" := User("A", "a@x.com", "h1", "t0"), "u2" := User("B", "b@x.com", "h2", "t0")];
    var after := users["u2" := users["u2"].(email := "a@x.com", lastUpdate := "t1")];
    assert after["u1"].email == after["u2"].email && "u1" != "u2";
  }

  // Password change and login

  /** After a successful change, logging in with the new password succeeds. */
  lemma LoginAfterChange(users: Users, hash: string -> string, id: string, newPassword: string, now: string)
    requires id in users
    ensures CanLogin(users[id := users[id].(password := hash(newPassword), lastUpdate := now)],
                     users[id].email, hash(newPassword))
  {
    var after := users[id := users[id].(password := hash(newPassword), lastUpdate := now)];
    assert id in after && after[id].email == users[id].email && after[id].password == hash(newPassword);
  }

  /**
   After a successful change, the old password no longer logs in, as long as
   emails are unique and the two passwords do not hash alike.
   */
  lemma OldPasswordRejectedAfterChange(users: Users, hash: string -> string, id: string,
                                       oldPassword: string, newPassword: string, now: string)
    requires id in users && EmailsUnique(users)
    requires hash(oldPassword) != hash(newPassword)
    ensures !CanLogin(users[id := users[id].(password := hash(newPassword), lastUpdate := now)],
                      users[id].email, hash(oldPassword))
  {
  }

  // Updates and deletes

  /** The device-timestamp write of `Data/UpdateValue`: only `last_update` of that one device changes. */
  lemma TouchDeviceChangesOnlyTimestamp(devices: Devices, id: string, now: string)
    ensures TouchDevice(devices, id, now).Keys == devices.Keys
    ensures forall k :: k in devices && k != id ==> TouchDevice(devices, id, now)[k] == devices[k]
    ensures id in devices ==> TouchDevice(devices, id, now)[id] == devices[id].(lastUpdate := now)
  {
  }

  /**
   The state `User/DeleteWithData` leaves: none of the user's devices and none
   of their readings remain, while every device of another user and every
   reading of such a device is kept as it was.
   */
  lemma CascadeRemovesExactlyTheSubtree(devices: Devices, data: Readings, id: string)
    ensures var owned := DevicesOfUser(devices, id);
      var devices' := devices - owned;
      var data' := data - ReadingsUnder(data, owned);
      && DevicesOfUser(devices', id) == {}
      && (forall k :: k in data' ==> data'[k].idDevice !in owned)
      && (forall k :: k in devices && devices[k].idUser != id ==> k in devices' && devices'[k] == devices[k])
      && (forall k :: k in data && data[k].idDevice !in owned ==> k in data' && data'[k] == data[k])
  {
  }

  // Sample request sequences, replayed on a fresh store

  /** Register, register again with the same email, log in. */
  method RegistrationScenario(hash: string -> string) returns (first: Envelope, second: Envelope, login: Envelope)
    ensures first.code == 201 && first.success
    ensures second == Envelope(400, "email address is already used", false)
    ensures login.code == 200 && login.success
  {
    var store := new Store(hash);
    first := store.CreateUser("A", "a@x.com", "p1", "2024-01-01 00:00:00", "u1");
    assert "u1" in UsersWithEmail(store.users, "a@x.com");
    second := store.CreateUser("B", "a@x.com", "p2", "2024-01-01 00:00:01", "u2");
    assert "u1" in store.users && store.users["u1"].password == hash("p1");
    login := store.Login("a@x.com", "p1");
  }

  /** A wrong old password changes nothing; the right one switches which password logs in. */
  method PasswordChangeScenario(hash: string -> string)
    returns (wrong: Envelope, changed: Envelope, loginNew: Envelope, loginOld: Envelope)
    requires hash("p1") != hash("p2")
    ensures wrong == Envelope(400, "old password not match", false)
    ensures changed.code == 204 && changed.success
    ensures loginNew.code == 200 && loginNew.success
    ensures loginOld == Envelope(400, "failed", false)
  {
    var store := new Store(hash);
    var created := store.CreateUser("A", "a@x.com", "p1", "2024-01-01 00:00:00", "u1");
    wrong := store.ChangePassword("u1", "p2", "p3", "2024-01-01 00:00:01");
    changed := store.ChangePassword("u1", "p1", "p2", "2024-01-01 00:00:02");
    LoginAfterChange(map["u1" := User("A", "a@x.com", hash("p1"), "2024-01-01 00:00:00")], hash, "u1", "p2", "2024-01-01 00:00:02");
    loginNew := store.Login("a@x.com", "p2");
    assert store.users.Keys == {"u1"};
    loginOld := store.Login("a@x.com", "p1");
  }

  /** The same device name is accepted under two users and refused twice under one. */
  method ScopedNameScenario(hash: string -> string) returns (first: Envelope, otherUser: Envelope, sameUser: Envelope)
    ensures first.code == 201 && otherUser.code == 201
    ensures sameUser == Envelope(400, "device name is already used", false)
  {
    var store := new Store(hash);
    first := store.CreateDevice("lamp", true, "", "u1", "2024-01-01 00:00:00", "d1");
    DeviceConflictIff(store.devices, "lamp", "u2");
    otherUser := store.CreateDevice("lamp", false, "", "u2", "2024-01-01 00:00:01", "d2");
    assert "d1" in DevicesNamed(store.devices, "lamp", "u1");
    sameUser := store.CreateDevice("lamp", true, "", "u1", "2024-01-01 00:00:02", "d3");
  }

  /** Deleting a user with its data keeps another user's device and reading. */
  method CascadeScenario(hash: string -> string) returns (devicesLeft: set<string>, readingsLeft: set<string>)
    ensures devicesLeft == {"d2"} && readingsLeft == {"r2"}
  {
    var store := new Store(hash);
    var r := store.CreateUser("A", "a@x.com", "p1", "t0", "u1");
    r := store.CreateDevice("lamp", true, "", "u1", "t0", "d1");
    r := store.CreateDevice("fan", true, "", "u2", "t0", "d2");
    r := store.CreateData("temp", Num(20.0), "d1", "t0", "r1");
    r := store.CreateData("temp", Num(21.5), "d2", "t0", "r2");
    r := store.DeleteUserWithData("u1");
    devicesLeft, readingsLeft := store.devices.Keys, store.data.Keys;
  }
}
