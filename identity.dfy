/** The identity handed to a newly opened connection. */
module IdentityPool {
  import opened ChatTypes

  /** The row `onOpen` builds for connection `fd`. The random pick of a name
      is the index `nameIndex` into the configured name pool; the avatar is
      always the first configured one. */
  function AssignIdentity(names: seq<string>, avatars: seq<string>, fd: int, nameIndex: nat): (u: User)
    requires nameIndex < |names| && |avatars| > 0
    ensures u.fd == fd
    ensures u.name in names
    ensures u.avatar == avatars[0]
  {
    User(fd, names[nameIndex], avatars[0])
  }

  /** Every configured name can be the one picked. */
  lemma EveryNameAssignable(names: seq<string>, avatars: seq<string>, fd: int, name: string)
    requires name in names && |avatars| > 0
    ensures exists i: nat :: i < |names| && AssignIdentity(names, avatars, fd, i).name == name
  {
    var i :| 0 <= i < |names| && names[i] == name;
    assert AssignIdentity(names, avatars, fd, i).name == name;
  }
}
