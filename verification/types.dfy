/**
 * The records the front end exchanges with the back end (src/types/index.ts, and the local
 * interfaces of the messages and profile pages). Optional properties are `Option`s; numbers
 * are integers.
 */
module Types {
  import opened Wrappers

  /** A signed-in administrator. */
  datatype User = User(
    id: string,
    username: string,
    email: string,
    firstName: string,
    lastName: string,
    isActive: bool,
    isStaff: bool,
    dateJoined: string)

  /** A portfolio project. `viewCount` may be missing in a response although the type
      declares it, so it is optional here. */
  datatype Project = Project(
    id: string,
    title: string,
    description: string,
    problem: string,
    process: string,
    impact: string,
    results: string,
    technologies: seq<string>,
    skills: seq<string>,
    category: Option<string>,
    status: Option<string>,
    viewCount: Option<int>,
    liveDemoUrl: Option<string>,
    githubUrl: Option<string>,
    displayOrder: int,
    isFeatured: bool,
    isPublished: bool,
    projectImage: Option<string>,
    galleryImages: Option<seq<string>>,
    projectSlug: string,
    createdAt: string)

  /** A position held. `isPublished` is sent by the back end but not declared by the type. */
  datatype Experience = Experience(
    id: string,
    company: string,
    position: string,
    location: Option<string>,
    startDate: string,
    endDate: Option<string>,
    description: string,
    technologies: seq<string>,
    achievements: seq<string>,
    isCurrent: bool,
    displayOrder: int,
    duration: string,
    isPublished: Option<bool>)

  /** A certificate earned. */
  datatype Certification = Certification(
    id: string,
    name: string,
    issuingOrganization: string,
    issueDate: string,
    expiryDate: Option<string>,
    credentialId: Option<string>,
    credentialUrl: Option<string>,
    description: Option<string>,
    skills: seq<string>,
    displayOrder: int,
    isExpired: bool,
    isPublished: Option<bool>)

  /** A workshop attended. */
  datatype Workshop = Workshop(
    id: string,
    title: string,
    organizer: string,
    date: string,
    durationHours: Option<int>,
    location: Option<string>,
    description: string,
    topics: seq<string>,
    certificateUrl: Option<string>,
    displayOrder: int,
    isPublished: Option<bool>)

  /** A message sent through the contact form, as the inbox lists it. */
  datatype ContactMessage = ContactMessage(
    id: string,
    fullName: string,
    email: string,
    phoneNumber: Option<string>,
    subject: string,
    message: string,
    organization: Option<string>,
    preferredContactMethod: Option<string>,
    status: string,
    createdAt: string,
    fileAttached: Option<string>)

  /** The owner's profile, as the profile page edits it. */
  datatype Profile = Profile(
    id: Option<string>,
    fullName: string,
    title: string,
    email: string,
    phoneNumber: string,
    location: string,
    linkedinUrl: string,
    githubUrl: string,
    portfolioUrl: string,
    summary: string,
    skills: seq<string>)
}
