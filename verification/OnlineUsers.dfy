/** The user registry of the single-process server: heap-allocated users, indexed by id, by socket and by
    name, and the names remembered per address. */
module OnlineUsers {
  import opened RegistryText

  class User {
    var fd: nat
    var id: nat
    var name: string

    constructor (fd: nat, id: nat, name: string)
      ensures this.fd == fd && this.id == id && this.name == name
    {
      this.fd, this.id, this.name := fd, id, name;
    }
  }

  class UserManager {
    var idUserMap: map<nat, User>
    var fdUserMap: map<nat, User>
    var nameUserMap: map<string, User>
    var ipUsernameMap: map<string, string>

    ghost var users: set<User>

    /** The id map and the socket map index the same users under their own ids and sockets; a non-empty name
        leads to the one user that has it; and no address remembers a name. The entry under the empty name
        may be out of date. */
    ghost predicate Valid()
      reads this, users
    {
      && (forall i | i in idUserMap :: idUserMap[i] in users && idUserMap[i].id == i)
      && (forall f | f in fdUserMap :: fdUserMap[f] in users && fdUserMap[f].fd == f)
      && (forall u | u in users :: u.id in idUserMap && idUserMap[u.id] == u && u.fd in fdUserMap && fdUserMap[u.fd] == u)
      && (forall u | u in users && u.name != "" :: u.name in nameUserMap && nameUserMap[u.name] == u)
      && (forall n | n in nameUserMap && n != "" :: nameUserMap[n] in users && nameUserMap[n].name == n)
      && (forall a | a in ipUsernameMap :: ipUsernameMap[a] == "")
    }

    constructor ()
      ensures Valid() && users == {} && idUserMap == map[] && fdUserMap == map[]
    {
      idUserMap, fdUserMap, nameUserMap, ipUsernameMap := map[], map[], map[], map[];
      users := {};
    }

    /** The id behind each socket. */
    ghost function Ids(): map<nat, nat>
      reads this`fdUserMap, fdUserMap.Values`id
    {
      map fd | fd in fdUserMap :: fdUserMap[fd].id
    }

    /** The name under each id. */
    ghost function Names(): map<nat, string>
      reads this`idUserMap, idUserMap.Values`name
    {
      map id | id in idUserMap :: idUserMap[id].name
    }

    /** Both maps index the same ids. */
    lemma IdsValues()
      requires Valid()
      ensures Ids().Values == idUserMap.Keys
    {
      forall id | id in idUserMap ensures id in Ids().Values {
        var u := idUserMap[id];
        assert u.fd in Ids() && Ids()[u.fd] == id;
      }
    }

    /** No two users have the same non-empty name. */
    lemma NamesUnique(i: nat, j: nat)
      requires Valid() && i in idUserMap && j in idUserMap
      requires idUserMap[i].name == idUserMap[j].name != ""
      ensures i == j
    {
      assert nameUserMap[idUserMap[i].name] == idUserMap[i] && nameUserMap[idUserMap[j].name] == idUserMap[j];
    }

    /** A remembered name is always empty, so at most the entry under the empty name is touched. */
    method RecallName(newUser: User, ipString: string)
      requires Valid() && newUser !in users && newUser.name == ""
      modifies this`nameUserMap, this`ipUsernameMap, newUser`name
      ensures Valid() && newUser.name == ""
    {
      if ipString in ipUsernameMap {
        newUser.name := ipUsernameMap[ipString];
        nameUserMap := nameUserMap[newUser.name := newUser];
      }
      ipUsernameMap := ipUsernameMap[ipString := newUser.name];
    }

    method AddUser(fd: nat, ipString: string) returns (newUser: User)
      requires Valid() && fd !in fdUserMap
      modifies this
      ensures Valid() && fresh(newUser) && users == old(users) + {newUser}
      ensures newUser.fd == fd && newUser.name == ""
      ensures newUser.id == LowestFree(old(idUserMap.Keys)) && newUser.id !in old(idUserMap)
      ensures Names() == old(Names())[newUser.id := ""]
      ensures idUserMap == old(idUserMap)[newUser.id := newUser] && fdUserMap == old(fdUserMap)[fd := newUser]
    {
      hide UserManager.Valid, LowestFree, IsLowestFree;
      var id := IdMin(idUserMap);
      newUser := new User(fd, id, "");
      hide UserManager.Names;
      Register(newUser, ipString);
    }

    method Register(newUser: User, ipString: string)
      requires Valid() && newUser !in users && newUser.name == ""
      requires newUser.id !in idUserMap && newUser.fd !in fdUserMap
      modifies this, newUser`name
      ensures Valid() && users == old(users) + {newUser} && newUser.name == ""
      ensures Names() == old(Names())[newUser.id := ""]
      ensures idUserMap == old(idUserMap)[newUser.id := newUser] && fdUserMap == old(fdUserMap)[newUser.fd := newUser]
    {
      assert forall i | i in idUserMap :: idUserMap[i] in users;
      hide UserManager.Valid;
      RecallName(newUser, ipString);
      Insert(newUser);
    }

    method Insert(newUser: User)
      requires Valid() && newUser !in users && newUser.name == ""
      requires newUser.id !in idUserMap && newUser.fd !in fdUserMap
      modifies this`idUserMap, this`fdUserMap, this`users
      ensures Valid() && users == old(users) + {newUser}
      ensures idUserMap == old(idUserMap)[newUser.id := newUser] && fdUserMap == old(fdUserMap)[newUser.fd := newUser]
    {
      idUserMap := idUserMap[newUser.id := newUser];
      fdUserMap := fdUserMap[newUser.fd := newUser];
      users := users + {newUser};
    }

    /** What both removals do with the user they have looked up. */
    method Erase(user: User)
      requires Valid() && user in users
      modifies this
      ensures Valid() && users == old(users) - {user}
      ensures idUserMap == old(idUserMap) - {user.id} && fdUserMap == old(fdUserMap) - {user.fd}
    {
      idUserMap := idUserMap - {user.id};
      fdUserMap := fdUserMap - {user.fd};
      if user.name != "" {
        nameUserMap := nameUserMap - {user.name};
      }
      users := users - {user};
    }

    /** The user is looked up before it is erased. */
    method RemoveUserById(id: nat)
      requires Valid()
      modifies this
      ensures Valid()
      ensures users == if id in old(idUserMap) then old(users) - {old(idUserMap[id])} else old(users)
      ensures fdUserMap == if id in old(idUserMap) then old(fdUserMap) - {old(idUserMap[id].fd)} else old(fdUserMap)
      ensures idUserMap == old(idUserMap) - {id}
    {
      if id !in idUserMap {
        return;
      }
      UsersIndexed(id);
      hide UserManager.Valid;
      Erase(idUserMap[id]);
    }

    method RemoveUserByFd(fd: nat)
      requires Valid()
      modifies this
      ensures Valid()
      ensures users == if fd in old(fdUserMap) then old(users) - {old(fdUserMap[fd])} else old(users)
      ensures idUserMap == if fd in old(fdUserMap) then old(idUserMap) - {old(fdUserMap[fd].id)} else old(idUserMap)
      ensures fdUserMap == old(fdUserMap) - {fd}
      ensures Names() == if fd in old(fdUserMap) then old(Names()) - {old(fdUserMap[fd].id)} else old(Names())
    {
      if fd !in fdUserMap {
        return;
      }
      SocketKnown(fd);
      hide UserManager.Valid;
      Erase(fdUserMap[fd]);
    }

    method GetUserByName(name: string) returns (user: User?)
      requires Valid()
      ensures user == null <==> name == "" || name !in nameUserMap
      ensures user != null ==> user.id in idUserMap && idUserMap[user.id] == user && user.name == name
      ensures name != "" ==> (user == null <==> forall i | i in idUserMap :: idUserMap[i].name != name)
    {
      if name == "" || name !in nameUserMap {
        return null;
      }
      user := nameUserMap[name];
    }

    lemma NamesTaken(name: string)
      requires Valid()
      ensures name in Names().Values <==> exists u :: u in users && u.name == name
    {
      if u :| u in users && u.name == name {
        assert u.id in idUserMap && Names()[u.id] == name;
      }
    }

    method Rename(user: User, name: string)
      requires Valid() && user in users && name != "" && forall u | u in users :: u.name != name
      modifies this`nameUserMap, user`name
      ensures Valid() && user.name == name
    {
      nameUserMap := nameUserMap - {user.name};
      user.name := name;
      nameUserMap := nameUserMap[name := user];
    }

    method SetNameById(id: nat, name: string) returns (ok: bool)
      requires Valid() && id in idUserMap
      modifies this`nameUserMap, (idUserMap[id] as User)`name
      ensures Valid() && users == old(users) && idUserMap == old(idUserMap) && fdUserMap == old(fdUserMap)
      ensures ok <==> name != "" && forall u | u in users :: old(u.name) != name
      ensures idUserMap[id].name == if ok then name else old(idUserMap[id].name)
      ensures ok <==> name != "" && name !in old(Names()).Values
      ensures Names() == if ok then old(Names())[id := name] else old(Names())
    {
      var found := GetUserByName(name);
      NamesTaken(name);
      UsersIndexed(id);
      if found != null || name == "" {
        return false;
      }
      hide UserManager.Valid;
      Rename(idUserMap[id], name);
      return true;
    }

    lemma UsersIndexed(id: nat)
      requires Valid() && id in idUserMap
      ensures idUserMap[id] in users && idUserMap[id].id == id
      ensures forall i | i in idUserMap && i != id :: idUserMap[i] != idUserMap[id]
      ensures forall u | u in users :: u.id in idUserMap && idUserMap[u.id] == u
    {
    }

    lemma SocketKnown(fd: nat)
      requires Valid() && fd in fdUserMap
      ensures fdUserMap[fd] in users && fdUserMap[fd].fd == fd
      ensures fdUserMap[fd].id in idUserMap && idUserMap[fdUserMap[fd].id] == fdUserMap[fd]
    {
    }
  }
}
