/**
  The fixed text of the generated specification, as the templates of
  `lib/prompt-generator.ts` and `hooks/use-prompt-generator.ts` lay it out,
  and the document structure both generators fill in.

  A document is a title line, a list of sections (a `## ` heading line and
  its body lines, in order) and a trailer line. The blank lines the
  templates put between sections carry no content and are not kept.
 */
module PromptTemplate {
  import opened Strings

  datatype Section = Section(heading: string, body: seq<string>)

  datatype Document = Document(title: string, sections: seq<Section>, trailer: string)

  /** The section headings, in order. */
  function Headings(ss: seq<Section>): (r: seq<string>)
    ensures |r| == |ss|
    ensures forall k :: 0 <= k < |ss| ==> r[k] == ss[k].heading
  {
    seq(|ss|, k requires 0 <= k < |ss| => ss[k].heading)
  }

  predicate HasSection(d: Document, heading: string) {
    heading in Headings(d.sections)
  }

  /** The lines of a list of sections: each heading followed by its body. */
  function SectionLines(ss: seq<Section>): seq<string> {
    if |ss| == 0 then [] else [ss[0].heading] + ss[0].body + SectionLines(ss[1..])
  }

  /** The lines of a document, first to last. */
  function Lines(d: Document): (r: seq<string>)
    ensures |r| >= 2 && r[0] == d.title && r[|r| - 1] == d.trailer
  {
    [d.title] + SectionLines(d.sections) + [d.trailer]
  }

  /** The text of a document: its lines joined with line breaks. */
  function Text(d: Document): string {
    Join(Lines(d), '\n')
  }

  lemma {:induction false} SectionLinesAppend(a: seq<Section>, b: seq<Section>)
    ensures SectionLines(a + b) == SectionLines(a) + SectionLines(b)
    decreases |a|
  {
    if |a| == 0 {
      assert a + b == b;
    } else {
      assert (a + b)[1..] == a[1..] + b;
      SectionLinesAppend(a[1..], b);
    }
  }

  /** No line of the document breaks across lines. */
  predicate SingleLines(d: Document) {
    forall k :: 0 <= k < |Lines(d)| ==> '\n' !in Lines(d)[k]
  }

  /** Splitting a document's text at line breaks gives back its lines. */
  lemma TextLines(d: Document)
    requires SingleLines(d)
    ensures Split(Text(d), '\n') == Lines(d)
  {
    SplitJoin(Lines(d), '\n');
  }

  const LayoutStructureBody: seq<string> := [
    "- **Viewport**: Responsive design with mobile-first approach",
    "- **Grid System**: 12-column grid with 1440px max-width container",
    "- **Spacing System**: 4px base unit (0.25rem) with consistent spacing scale"
  ]

  const ColorPaletteBody: seq<string> := [
    "- **Primary Background**: #0f1117 (dark blue-gray)",
    "- **Secondary Background**: #1c1f26 (slightly lighter blue-gray)",
    "- **Panel Gradient**: linear-gradient(180deg, rgba(28,31,38,0.8) 0%, rgba(28,31,38,1) 100%)",
    "- **Primary Accent**: #3B82F6 (bright blue)",
    "- **Secondary Accent**: #4F46E5 (indigo)",
    "- **Success**: #10B981 (green)",
    "- **Warning**: #F59E0B (amber)",
    "- **Error**: #EF4444 (red)",
    "- **Text Primary**: #FFFFFF (white)",
    "- **Text Secondary**: #94A3B8 (light gray)",
    "- **Text Muted**: #64748B (medium gray)",
    "- **Border Color**: rgba(42,47,58,0.5) (semi-transparent gray)"
  ]

  const TypographyBody: seq<string> := [
    "- **Font Family**: Inter, system-ui, sans-serif",
    "- **Base Size**: 16px (1rem)",
    "- **Scale**: 1.25 ratio",
    "- **Weights**: 300 (light), 400 (regular), 500 (medium), 600 (semibold)",
    "- **Line Heights**: 1.5 for body text, 1.2 for headings"
  ]

  const ComponentsLeading: seq<string> := [
    "### Header",
    "- Fixed position with backdrop blur (backdrop-filter: blur(12px))",
    "- Height: 72px",
    "- Logo size: 36px \U{00D7} 36px",
    "- Border bottom: 1px solid rgba(28,31,38,0.5)",
    "- Right-aligned navigation with 24px spacing between items",
    "### Upload Area",
    "- Height: 340px when empty",
    "- Border radius: 16px (1rem)",
    "- Border: 1px solid rgba(42,47,58,0.5)",
    "- Upload icon: 28px \U{00D7} 28px, blue (#3B82F6) with 80% opacity",
    "- Circular background behind icon: 64px diameter, rgba(15,17,23,0.5)",
    "- Text: 18px for primary, 14px for secondary",
    "- Button: rounded-full with 24px horizontal padding"
  ]

  const ImageGallerySpec: seq<string> := [
    "### Image Gallery",
    "- Horizontal scrolling thumbnails with 64px \U{00D7} 64px size",
    "- Active thumbnail indicator with blue border",
    "- Navigation arrows for browsing multiple images",
    "- Status indicators for upload progress and errors",
    "- Image counter showing total uploaded images"
  ]

  const ComponentsTrailing: seq<string> := [
    "### Quick Access Tools",
    "- Horizontal pill layout with flex-wrap",
    "- Each pill: height 32px with 12px horizontal padding",
    "- Icon size: 14px \U{00D7} 14px",
    "- Text size: 12px",
    "- Border radius: 9999px (rounded-full)",
    "- Gap between items: 8px",
    "### Generated Prompt",
    "- Min height: 180px",
    "- Border radius: 8px",
    "- Padding: 16px",
    "- Text size: 14px",
    "- Line height: 1.6",
    "- Copy button: top-right positioned",
    "### Control Panel",
    "- Border radius: 16px",
    "- Padding: 32px",
    "- Spacing between sections: 32px",
    "- Input height: 44px",
    "- Slider track height: 4px",
    "- Slider thumb size: 16px \U{00D7} 16px",
    "### Generate Button",
    "- Height: 56px",
    "- Border radius: 12px",
    "- Font size: 16px",
    "- Font weight: 500 (medium)",
    "- Gradient background: linear-gradient(90deg, rgba(59,130,246,0.9) 0%, rgba(79,70,229,0.9) 100%)",
    "- Box shadow: 0 4px 12px rgba(59,130,246,0.2)",
    "- Loading spinner: 20px \U{00D7} 20px"
  ]

  const ImagePreviewSpec: seq<string> := [
    "### Image Preview",
    "- Maintain aspect ratio of uploaded image",
    "- Max height: 300px",
    "- Object-fit: contain",
    "- Status indicator: 24px \U{00D7} 24px with checkmark icon",
    "- Remove button: circular with hover effect"
  ]

  const InteractionsBody: seq<string> := [
    "- **Hover States**: Scale transform of 1.01-1.05 for clickable elements",
    "- **Focus States**: Blue outline with 2px offset",
    "- **Active States**: Slightly darker colors (10% darker)",
    "- **Transitions**: 300ms duration with ease-in-out timing",
    "- **Loading States**: Spinner animation with 1.5s rotation"
  ]

  const ResponsiveBreakpointsBody: seq<string> := [
    "- **Mobile**: < 640px (stack all elements vertically)",
    "- **Tablet**: 640px - 1024px (2-column layout)",
    "- **Desktop**: > 1024px (3:2 column ratio layout)"
  ]

  const AccessibilityRequirementsBody: seq<string> := [
    "- Minimum contrast ratio: 4.5:1 for all text",
    "- Focus indicators for all interactive elements",
    "- Proper ARIA labels for all UI components",
    "- Screen reader support with descriptive alt text",
    "- Keyboard navigation support"
  ]

  const ImplementationNotesBody: seq<string> := [
    "- Use Next.js with App Router",
    "- Implement with Tailwind CSS for styling",
    "- Use shadcn/ui components where applicable",
    "- Implement proper loading and error states",
    "- Ensure responsive behavior across all device sizes",
    "- Optimize image loading with next/image"
  ]

  const PerformanceOptimizationBody: seq<string> := [
    "- Implement lazy loading for images",
    "- Use Next.js Image component with proper sizing",
    "- Implement code splitting for large components",
    "- Use React.memo for expensive renders",
    "- Implement virtualization for long lists"
  ]

  const AnimationGuidelinesBody: seq<string> := [
    "- Use framer-motion for complex animations",
    "- Keep animations subtle and purposeful",
    "- Ensure animations respect reduced-motion preferences",
    "- Use spring physics for natural movement",
    "- Implement staggered animations for groups of elements"
  ]

  const LayoutStructure: Section := Section("## Layout Structure", LayoutStructureBody)
  const ColorPalette: Section := Section("## Color Palette", ColorPaletteBody)
  const Typography: Section := Section("## Typography", TypographyBody)
  const Interactions: Section := Section("## Interactions", InteractionsBody)
  const ResponsiveBreakpoints: Section := Section("## Responsive Breakpoints", ResponsiveBreakpointsBody)
  const AccessibilityRequirements: Section := Section("## Accessibility Requirements", AccessibilityRequirementsBody)
  const ImplementationNotes: Section := Section("## Implementation Notes", ImplementationNotesBody)

  /** The component section; the generators differ only in the third subsection. */
  function ComponentSpecifications(third: seq<string>): Section {
    Section("## Component Specifications", ComponentsLeading + third + ComponentsTrailing)
  }

  /** The eight sections every generated specification carries, in order. */
  function FixedSections(third: seq<string>): (r: seq<Section>)
    ensures |r| == 8
  {
    [LayoutStructure, ColorPalette, Typography, ComponentSpecifications(third),
     Interactions, ResponsiveBreakpoints, AccessibilityRequirements, ImplementationNotes]
  }

  const PerformanceOptimization: Section := Section("## Performance Optimization", PerformanceOptimizationBody)
  const AnimationGuidelines: Section := Section("## Animation Guidelines", AnimationGuidelinesBody)
}
