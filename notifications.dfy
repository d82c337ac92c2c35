/**
 * The notification service. Each call persists exactly one notification
 * record and then attempts the e-mail and SMS channels. Both channels catch
 * their own errors. Attempted sends are kept as a log of deliveries, in
 * place of the mail transporter and of the SMS console line.
 */
module Notifications {
  import opened Wrappers
  import opened Text
  import Students

  /**
   * A student as the service loads it, with the name of its school; `None`
   * when the student has no school, the relation being optional.
   */
  datatype Recipient = Recipient(name: string, schoolName: Option<string>, parentContactInfo: Option<Students.ParentContact>)

  datatype NotificationType = ResultAlert | CaAlert | Custom

  /** The `metadata` column: `{}` for alerts, the option hints for custom notifications. */
  datatype Metadata = NoMetadata | Hints(priority: string, template: string, scheduledFor: Option<string>)

  datatype Notification = Notification(
    id: nat,
    studentId: int,
    message: string,
    kind: NotificationType,
    metadata: Metadata,
    sentAt: int,
    status: string)

  /** The values the HTML e-mail template interpolates. */
  datatype EmailBody = EmailBody(heading: string, schoolName: string, studentName: string, message: string)

  /** One attempted send: a mail handed to the transporter, or the logged stand-in for an SMS. */
  datatype Delivery =
    | Email(to: string, subject: string, html: EmailBody)
    | SmsLogged(to: string, message: string)

  /** The `resultData` and `caData` arguments of the two alerts. */
  datatype ResultData = ResultData(subject: string, finalScore: int)
  datatype CaData = CaData(subject: string, caScore: int, totalCA: int)

  /** The `options` bag of a custom notification; a key that is absent is `None`. */
  datatype Options = Options(
    channels: Option<seq<string>>,
    priority: Option<string>,
    template: Option<string>,
    scheduledFor: Option<string>)

  /** The options after the destructuring defaults. */
  datatype Settings = Settings(channels: seq<string>, priority: string, template: string, scheduledFor: Option<string>)

  const DefaultChannels: seq<string> := ["email", "sms", "app"]

  /** Destructuring with defaults: every absent key takes its default, a given key is kept. */
  function ResolveOptions(o: Options): (s: Settings)
    ensures s.channels == if o.channels.Some? then o.channels.value else DefaultChannels
    ensures s.priority == if o.priority.Some? then o.priority.value else "normal"
    ensures s.template == if o.template.Some? then o.template.value else "default"
    ensures s.scheduledFor == o.scheduledFor
  {
    Settings(
      match o.channels case Some(c) => c case None => DefaultChannels,
      match o.priority case Some(p) => p case None => "normal",
      match o.template case Some(t) => t case None => "default",
      o.scheduledFor)
  }

  /** JavaScript truthiness of an optional string. */
  predicate Truthy(s: Option<string>)
  {
    s.Some? && s.value != ""
  }

  predicate HasParentEmail(student: Option<Recipient>)
  {
    student.Some? && student.value.parentContactInfo.Some? && Truthy(student.value.parentContactInfo.value.email)
  }

  predicate HasParentPhone(student: Option<Recipient>)
  {
    student.Some? && student.value.parentContactInfo.Some? && Truthy(student.value.parentContactInfo.value.phone)
  }

  predicate HasSchool(student: Option<Recipient>)
  {
    student.Some? && student.value.schoolName.Some?
  }

  /**
   * What `sendEmail` hands to the transporter. A missing address returns
   * early. A missing student, or a student without a school, throws inside
   * the `try` when the subject reads the school's name. All of these send
   * nothing.
   */
  function EmailDelivery(student: Option<Recipient>, message: string, subject: string): (d: Option<Delivery>)
    ensures d.Some? <==> HasParentEmail(student) && HasSchool(student)
    ensures d.Some? ==>
      && d.value.Email?
      && d.value.to == student.value.parentContactInfo.value.email.value
      && d.value.subject == subject + " - " + student.value.schoolName.value
      && d.value.html == EmailBody(subject, student.value.schoolName.value, student.value.name, message)
  {
    if !HasParentEmail(student) then None
    else match student.value.schoolName
      case None => None
      case Some(school) =>
        var s := student.value;
        Some(Email(s.parentContactInfo.value.email.value, subject + " - " + school,
                   EmailBody(subject, school, s.name, message)))
  }

  /** What `sendSMS` does: it only logs the message for the parent's phone; no provider is called. */
  function SmsDelivery(student: Option<Recipient>, message: string): (d: Option<Delivery>)
    ensures d.Some? <==> HasParentPhone(student)
    ensures d.Some? ==> d == Some(SmsLogged(student.value.parentContactInfo.value.phone.value, message))
  {
    if HasParentPhone(student) then Some(SmsLogged(student.value.parentContactInfo.value.phone.value, message))
    else None
  }

  function AsSeq(d: Option<Delivery>): seq<Delivery>
  {
    if d.Some? then [d.value] else []
  }

  /**
   * The sends a call attempts for its channel list: e-mail iff the list holds
   * "email", SMS iff it holds "sms", in that order. Any other channel name
   * ("app" included) triggers nothing. Each send is the one the channel's
   * own function decides on, and each channel sends at most once.
   */
  function Dispatch(channels: seq<string>, student: Option<Recipient>, message: string, subject: string)
    : (ds: seq<Delivery>)
    ensures |ds| <= 2
    ensures (exists i :: 0 <= i < |ds| && ds[i].Email?) <==>
      "email" in channels && HasParentEmail(student) && HasSchool(student)
    ensures (exists i :: 0 <= i < |ds| && ds[i].SmsLogged?) <==> "sms" in channels && HasParentPhone(student)
    ensures forall i :: 0 <= i < |ds| ==>
      || ("email" in channels && Some(ds[i]) == EmailDelivery(student, message, subject))
      || ("sms" in channels && Some(ds[i]) == SmsDelivery(student, message))
    ensures |ds| == (if "email" in channels && EmailDelivery(student, message, subject).Some? then 1 else 0)
                  + (if "sms" in channels && SmsDelivery(student, message).Some? then 1 else 0)
    ensures forall i, j :: 0 <= i < j < |ds| ==> ds[i].Email? && ds[j].SmsLogged?
  {
    var email := if "email" in channels then AsSeq(EmailDelivery(student, message, subject)) else [];
    var sms := if "sms" in channels then AsSeq(SmsDelivery(student, message)) else [];
    var ds := email + sms;
    assert forall i :: 0 <= i < |ds| ==> (ds[i].Email? <==> i < |email|);
    assert email != [] ==> ds[0].Email?;
    assert sms != [] ==> ds[|email|].SmsLogged?;
    ds
  }

  /** Only the names "email" and "sms" matter: adding any other channel names changes nothing. */
  lemma OtherChannelsIgnored(channels: seq<string>, extra: seq<string>, student: Option<Recipient>,
                             message: string, subject: string)
    requires "email" !in extra && "sms" !in extra
    ensures Dispatch(channels + extra, student, message, subject) == Dispatch(channels, student, message, subject)
  {
    assert "email" in channels + extra <==> "email" in channels;
    assert "sms" in channels + extra <==> "sms" in channels;
  }

  /** With the default options a custom notification attempts the same sends as an alert. */
  lemma DefaultsAttemptBothChannels(student: Option<Recipient>, message: string, subject: string)
    ensures var s := ResolveOptions(Options(None, None, None, None));
      && Dispatch(s.channels, student, message, subject) == Dispatch(["email", "sms"], student, message, subject)
      && s == Settings(["email", "sms", "app"], "normal", "default", None)
  {
    OtherChannelsIgnored(["email", "sms"], ["app"], student, message, subject);
    assert ["email", "sms"] + ["app"] == DefaultChannels;
  }

  /** The RESULT_ALERT text: the student's name first, the rendered score last. */
  function ResultAlertMessage(name: string, data: ResultData): (m: string)
    ensures "New result available for " + name <= m
    ensures var score := ", Score: " + IntToString(data.finalScore);
      |m| >= |score| && m[|m| - |score|..] == score
  {
    "New result available for " + name + ". Subject: " + data.subject + ", Score: " + IntToString(data.finalScore)
  }

  /** The CA_ALERT text: the subject first, then the CA score over the CA total. */
  function CaAlertMessage(data: CaData): (m: string)
    ensures "CA Score Updated: " + data.subject + " - " <= m
    ensures var total := "/" + IntToString(data.totalCA);
      |m| >= |total| && m[|m| - |total|..] == total
  {
    "CA Score Updated: " + data.subject + " - " + IntToString(data.caScore) + "/" + IntToString(data.totalCA)
  }

  /** `student.findUnique({ where: { studentId } })`: null exactly for an unknown key. */
  function Lookup(directory: map<int, Recipient>, studentId: int): (r: Option<Recipient>)
    ensures r.None? <==> studentId !in directory
    ensures r.Some? ==> r.value == directory[studentId]
  {
    if studentId in directory then Some(directory[studentId]) else None
  }

  /** The notification table and the log of attempted sends. */
  class NotificationService {
    var notifications: seq<Notification>
    var deliveries: seq<Delivery>
    var nextId: nat

    /** Record ids are distinct and below the next id to hand out. */
    ghost predicate Valid()
      reads this
    {
      && (forall i :: 0 <= i < |notifications| ==> notifications[i].id < nextId)
      && (forall i, j :: 0 <= i < j < |notifications| ==> notifications[i].id != notifications[j].id)
    }

    constructor ()
      ensures Valid() && notifications == [] && deliveries == [] && nextId == 1
    {
      notifications, deliveries, nextId := [], [], 1;
    }

    /** `createNotification`: one new record with status "SENT", stamped with `now`. */
    method CreateNotification(studentId: int, message: string, kind: NotificationType, metadata: Metadata, now: int)
      returns (n: Notification)
      requires Valid()
      modifies this
      ensures Valid()
      ensures n == Notification(old(nextId), studentId, message, kind, metadata, now, "SENT")
      ensures notifications == old(notifications) + [n] && deliveries == old(deliveries)
      ensures nextId == old(nextId) + 1
    {
      n := Notification(nextId, studentId, message, kind, metadata, now, "SENT");
      notifications := notifications + [n];
      nextId := nextId + 1;
    }

    /** `sendEmail`: errors are swallowed, so it never fails its caller. */
    method SendEmail(student: Option<Recipient>, message: string, subject: string)
      modifies this`deliveries
      ensures deliveries == old(deliveries) + AsSeq(EmailDelivery(student, message, subject))
    {
      var d := EmailDelivery(student, message, subject);
      if d.Some? {
        deliveries := deliveries + [d.value];
      }
    }

    /** `sendSMS`: logs the message when a parent phone is known; never fails its caller. */
    method SendSms(student: Option<Recipient>, message: string)
      modifies this`deliveries
      ensures deliveries == old(deliveries) + AsSeq(SmsDelivery(student, message))
    {
      var d := SmsDelivery(student, message);
      if d.Some? {
        deliveries := deliveries + [d.value];
      }
    }

    /**
     * `sendResultAlert`: an unknown student is rejected before anything is
     * written; otherwise one RESULT_ALERT record and both channels.
     */
    method SendResultAlert(directory: map<int, Recipient>, studentId: int, data: ResultData, now: int)
      returns (r: Result<Notification>)
      requires Valid()
      modifies this
      ensures Valid()
      ensures studentId !in directory ==>
        && r == Failure("Student not found")
        && notifications == old(notifications) && deliveries == old(deliveries) && nextId == old(nextId)
      ensures studentId in directory ==>
        var message := ResultAlertMessage(directory[studentId].name, data);
        && r == Success(Notification(old(nextId), studentId, message, ResultAlert, NoMetadata, now, "SENT"))
        && notifications == old(notifications) + [r.value]
        && deliveries == old(deliveries) + Dispatch(["email", "sms"], Some(directory[studentId]), message, "New Result Available")
    {
      var student := Lookup(directory, studentId);
      if student.None? {
        return Failure("Student not found");
      }
      var message := ResultAlertMessage(student.value.name, data);
      var n := CreateNotification(studentId, message, ResultAlert, NoMetadata, now);
      SendEmail(student, message, "New Result Available");
      SendSms(student, message);
      r := Success(n);
    }

    /**
     * `sendCAScoreAlert`: no check for a missing student; the CA_ALERT
     * record is always created, and a missing student only makes both
     * channels fail silently.
     */
    method SendCAScoreAlert(directory: map<int, Recipient>, studentId: int, data: CaData, now: int)
      returns (n: Notification)
      requires Valid()
      modifies this
      ensures Valid()
      ensures n == Notification(old(nextId), studentId, CaAlertMessage(data), CaAlert, NoMetadata, now, "SENT")
      ensures notifications == old(notifications) + [n]
      ensures deliveries == old(deliveries) + Dispatch(["email", "sms"], Lookup(directory, studentId), CaAlertMessage(data), "CA Score Update")
    {
      var student := Lookup(directory, studentId);
      var message := CaAlertMessage(data);
      n := CreateNotification(studentId, message, CaAlert, NoMetadata, now);
      SendEmail(student, message, "CA Score Update");
      SendSms(student, message);
    }

    /**
     * `sendCustomNotification`: the CUSTOM record with the option hints is
     * written first, then the channels the options select are attempted.
     */
    method SendCustomNotification(directory: map<int, Recipient>, studentId: int, message: string, options: Options, now: int)
      returns (n: Notification)
      requires Valid()
      modifies this
      ensures Valid()
      ensures var s := ResolveOptions(options);
        n == Notification(old(nextId), studentId, message, Custom, Hints(s.priority, s.template, s.scheduledFor), now, "SENT")
      ensures notifications == old(notifications) + [n]
      ensures deliveries == old(deliveries) +
        Dispatch(ResolveOptions(options).channels, Lookup(directory, studentId), message, "School Notification")
    {
      var settings := ResolveOptions(options);
      n := CreateNotification(studentId, message, Custom,
                              Hints(settings.priority, settings.template, settings.scheduledFor), now);
      var student := Lookup(directory, studentId);
      if "email" in settings.channels {
        SendEmail(student, message, "School Notification");
      }
      if "sms" in settings.channels {
        SendSms(student, message);
      }
    }
  }
}
