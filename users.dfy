/** The parts of the `User` entity that the modelled services read. */
module Users {

  datatype User = User(
    id: nat,
    username: string,                  // the login name (UserDetails.getUsername)
    nickname: string,                  // the display name (User.getNickname)
    isEmailNotificationAgreed: bool)
}
