/** The command request of the meeseeks package, with the fields a reply reads. */
module Meeseeks {

  datatype Request = Request(
    command: string,
    args: seq<string>,
    username: string,
    userLink: string,
    userID: string,
    channel: string,
    channelLink: string,
    channelID: string,
    isIM: bool)
}
